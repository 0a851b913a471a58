/**
 `BaseConsumer.handle_message`: one delivery either succeeds, is republished to the shared topic with a higher
 retry count, or goes to the group's dead-letter topic; then the offset is committed.
 */
module ConsumerRetry {
  import opened Wrappers

  const MAX_RETRIES: int := 3

  const RETRY_HEADER: string := "x-retry-count"

  /** A header value as the decoder sees it: a decimal integer, or bytes that `int()` rejects. */
  datatype HeaderValue = Number(n: int) | NotANumber

  datatype Header = Header(key: string, value: HeaderValue)

  /** A payload that `json.loads` accepts, one that it rejects as JSON, or bytes that are no text: for those it raises
      another exception, which nothing catches. */
  datatype Body = Json(content: nat) | NotJson(content: nat) | NotText(content: nat)

  datatype Message = Message(body: Body, headers: seq<Header>)

  datatype HandleError = BadRetryHeader | BadEncoding | KafkaError

  /** Which of the Kafka calls of one delivery return: the commit after `process`, the send to the shared or the
      dead-letter topic, and the commit after that send. */
  datatype Kafka = Kafka(firstCommit: bool, send: bool, lastCommit: bool)

  /** The first retry header counts; without one the count is zero. */
  function RetryCount(headers: seq<Header>): Result<int, HandleError> {
    if headers == [] then Ok(0)
    else if headers[0].key == RETRY_HEADER then
      (match headers[0].value case Number(n) => Ok(n) case NotANumber => Err(BadRetryHeader))
    else RetryCount(headers[1..])
  }

  function WithoutRetry(headers: seq<Header>): seq<Header> {
    if headers == [] then []
    else if headers[0].key == RETRY_HEADER then WithoutRetry(headers[1..])
    else [headers[0]] + WithoutRetry(headers[1..])
  }

  function Retried(m: Message, count: int): Message {
    m.(headers := WithoutRetry(m.headers) + [Header(RETRY_HEADER, Number(count))])
  }

  /** What one delivery does to Kafka. */
  datatype Reaction = Processed | DeadLettered | Republished(message: Message)

  function React(m: Message, succeeds: bool): Result<Reaction, HandleError> {
    match RetryCount(m.headers)
    case Err(e) => Err(e)
    case Ok(count) =>
      if m.body.NotText? then Err(BadEncoding)
      else if m.body.NotJson? then Ok(DeadLettered)
      else if succeeds then Ok(Processed)
      else if count >= MAX_RETRIES then Ok(DeadLettered)
      else Ok(Republished(Retried(m, count + 1)))
  }

  /* ---- What the header functions compute ---- */

  /** Where the first retry header stands, if there is one. */
  ghost predicate FirstRetry(headers: seq<Header>, i: nat) {
    i < |headers| && headers[i].key == "x-retry-count" && forall j :: 0 <= j < i ==> headers[j].key != "x-retry-count"
  }

  /** The first retry header counts, whatever comes after it; a message without one has count zero. */
  lemma {:induction false} FirstHeaderCounts(headers: seq<Header>, i: nat)
    ensures FirstRetry(headers, i) ==>
              RetryCount(headers)
              == match headers[i].value case Number(n) => Ok(n) case NotANumber => Err(BadRetryHeader)
    ensures (forall h :: h in headers ==> h.key != "x-retry-count") ==> RetryCount(headers) == Ok(0)
  {
    if headers != [] {
      assert headers == [headers[0]] + headers[1..];
      if i > 0 {
        if FirstRetry(headers, i) {
          assert forall j :: 0 <= j < i - 1 ==> headers[1..][j] == headers[j + 1];
        }
        FirstHeaderCounts(headers[1..], i - 1);
      } else {
        FirstHeaderCounts(headers[1..], 0);
      }
    }
  }

  /** The retry headers go, every other header stays, in its place. */
  lemma {:induction false} OthersStay(headers: seq<Header>, more: seq<Header>, h: Header)
    ensures WithoutRetry([]) == [] && WithoutRetry([h]) == (if h.key == "x-retry-count" then [] else [h])
    ensures WithoutRetry(headers + more) == WithoutRetry(headers) + WithoutRetry(more)
    ensures multiset(WithoutRetry(headers))[h] == if h.key == "x-retry-count" then 0 else multiset(headers)[h]
  {
    assert [h][1..] == [];
    if headers == [] {
      assert headers + more == more;
    } else {
      assert headers == [headers[0]] + headers[1..];
      assert (headers + more)[1..] == headers[1..] + more;
      OthersStay(headers[1..], more, h);
    }
  }

  lemma NoRetryLeft(headers: seq<Header>)
    ensures forall h :: h in WithoutRetry(headers) ==> h.key != "x-retry-count"
  {
    forall h | h in WithoutRetry(headers) ensures h.key != "x-retry-count" {
      OthersStay(headers, [], h);
      assert multiset(WithoutRetry(headers))[h] > 0;
    }
  }

  lemma {:induction false} Untouched(headers: seq<Header>)
    requires forall h :: h in headers ==> h.key != "x-retry-count"
    ensures WithoutRetry(headers) == headers
  {
    if headers != [] {
      assert headers == [headers[0]] + headers[1..];
      Untouched(headers[1..]);
    }
  }

  lemma AppendedCounts(headers: seq<Header>, count: int)
    ensures
      var last := Header("x-retry-count", Number(count));
      var kept := WithoutRetry(headers);
      && RetryCount(kept + [last]) == Ok(count) && FirstRetry(kept + [last], |kept|)
      && WithoutRetry(kept + [last]) == kept
  {
    var last := Header("x-retry-count", Number(count));
    var kept := WithoutRetry(headers);
    NoRetryLeft(headers);
    OthersStay(kept, [last], last);
    Untouched(kept);
    FirstHeaderCounts(kept + [last], |kept|);
    hide RetryCount, WithoutRetry;
    assert kept + [] == kept;
    assert (kept + [last])[|kept|] == last;
    forall j | 0 <= j < |kept| ensures (kept + [last])[j].key != "x-retry-count" {
      assert (kept + [last])[j] == kept[j] && kept[j] in kept;
    }
  }

  /** A republished message has the body and the other headers of the one it was read from, in order, and exactly one
      retry header, which reads back one higher than the count it was read with. */
  lemma RetriedCountsUp(m: Message, succeeds: bool)
    requires React(m, succeeds).Ok? && React(m, succeeds).value.Republished?
    ensures
      var copy, count := React(m, succeeds).value.message, RetryCount(m.headers).value;
      && copy.body == m.body
      && copy.headers == WithoutRetry(m.headers) + [Header("x-retry-count", Number(count + 1))]
      && RetryCount(copy.headers) == Ok(count + 1)
      && FirstRetry(copy.headers, |copy.headers| - 1)
      && WithoutRetry(copy.headers) == WithoutRetry(m.headers)
  {
    AppendedCounts(m.headers, RetryCount(m.headers).value + 1);
    hide RetryCount, WithoutRetry, FirstRetry;
  }

  /** What becomes of a delivery, exactly: an unreadable retry header or bytes that are no text raise; text that is not
      JSON goes to the dead-letter topic whatever its count; JSON is processed if `process` returns, and otherwise
      republished up to the third retry and dead-lettered after it. */
  lemma ReactsExactly(m: Message, succeeds: bool)
    ensures
      var r, count := React(m, succeeds), RetryCount(m.headers);
      && (count.Err? ==> r == Err(BadRetryHeader))
      && (count.Ok? && m.body.NotText? <==> r == Err(BadEncoding))
      && (r == Ok(Processed) <==> count.Ok? && m.body.Json? && succeeds)
      && (r == Ok(DeadLettered) <==>
            count.Ok? && (m.body.NotJson? || (m.body.Json? && !succeeds && count.value >= 3)))
      && (r.Ok? && r.value.Republished? <==> count.Ok? && m.body.Json? && !succeeds && count.value < 3)
  {
    OnlyBadHeader(m.headers);
  }

  lemma {:induction false} OnlyBadHeader(headers: seq<Header>)
    ensures RetryCount(headers).Err? ==> RetryCount(headers).error == BadRetryHeader
  {
    if headers != [] { OnlyBadHeader(headers[1..]); }
  }

  /** One subscribed group: the shared topic it republishes to, its dead-letter topic, and its committed offset. */
  class Consumer {
    var topic: seq<Message>
    var deadLetters: seq<Body>
    var committed: nat

    constructor (topic: seq<Message>)
      ensures this.topic == topic && deadLetters == [] && committed == 0
    {
      this.topic, deadLetters, committed := topic, [], 0;
    }

    static method ReadRetryCount(headers: seq<Header>) returns (count: Result<int, HandleError>)
      ensures count == RetryCount(headers)
    {
      var i := 0;
      while i < |headers|
        invariant i <= |headers| && RetryCount(headers) == RetryCount(headers[i..])
      {
        if headers[i].key == RETRY_HEADER {
          match headers[i].value {
            case Number(n) => return Ok(n);
            case NotANumber => return Err(BadRetryHeader);
          }
        }
        assert headers[i..][1..] == headers[i + 1..];
        i := i + 1;
      }
      return Ok(0);
    }

    /** Handles the message at the committed offset; `succeeds` is whether the group's `process` returns. A commit that
        raises after it is treated like a failure of it; one that raises after a send leaves the sent copy behind. */
    method HandleMessage(succeeds: bool, kafka: Kafka) returns (reaction: Result<Reaction, HandleError>)
      requires committed < |topic|
      modifies this
      ensures
        var planned := React(old(topic[committed]), succeeds && kafka.firstCommit);
        var sends := planned.Ok? && !planned.value.Processed?;
        && reaction == (if sends && !(kafka.send && kafka.lastCommit) then Err(KafkaError) else planned)
        && committed == old(committed) + (if reaction.Ok? then 1 else 0)
        && topic
           == old(topic) + (if sends && kafka.send && planned.value.Republished? then [planned.value.message] else [])
        && deadLetters
           == old(deadLetters)
              + (if sends && kafka.send && planned.value.DeadLettered? then [old(topic[committed]).body] else [])
    {
      var message := topic[committed];
      var counted := ReadRetryCount(message.headers);
      if counted.Err? {
        return Err(counted.error);
      }
      if message.body.NotText? {
        return Err(BadEncoding);
      }
      if message.body.NotJson? {
        if !kafka.send {
          return Err(KafkaError);
        }
        deadLetters := deadLetters + [message.body];
        if !kafka.lastCommit {
          return Err(KafkaError);
        }
        committed := committed + 1;
        return Ok(DeadLettered);
      }
      if succeeds && kafka.firstCommit {
        committed := committed + 1;
        return Ok(Processed);
      }
      if !kafka.send {
        return Err(KafkaError);
      }
      if counted.value >= MAX_RETRIES {
        deadLetters := deadLetters + [message.body];
        reaction := Ok(DeadLettered);
      } else {
        var retry := Retried(message, counted.value + 1);
        topic := topic + [retry];
        reaction := Ok(Republished(retry));
      }
      if !kafka.lastCommit {
        return Err(KafkaError);
      }
      committed := committed + 1;
    }
  }
}
