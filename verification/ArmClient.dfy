/**
  The Azure Resource Manager client's retries and pagination (functions/crates/azure/src/arm.rs).
  Waits are in milliseconds. Replies are what the service answers to each attempt or page.
 */
module ArmClient {
  import opened Wrappers

  const ATTEMPTS: nat := 3
  const RETRY_BACKOFF: nat := 1000
  const MAX_RETRY_WAIT: nat := 4000

  datatype Method = Get | Put | Patch | Delete | Post

  /** What one attempt comes to: an answer, or none. `processed` is whether the request took
      effect, which the client doesn't see. */
  datatype Reply =
    | Answer(status: nat, retryAfter: Option<nat>, processed: bool)
    | NoAnswer(processed: bool)

  predicate Retryable(m: Method, status: nat) {
    if status == 429 || status == 503 then true
    else if status == 500 || status == 502 || status == 504 then m == Get
    else false
  }

  function Pow2(n: nat): nat {
    if n == 0 then 1 else 2 * Pow2(n - 1)
  }

  function Min(a: nat, b: nat): nat {
    if a < b then a else b
  }

  function RetryWait(retryAfter: Option<nat>, attempt: nat): nat
    requires attempt >= 1
  {
    Min(match retryAfter
        case Some(seconds) => 1000 * seconds
        case None => RETRY_BACKOFF * Pow2(attempt - 1),
        MAX_RETRY_WAIT)
  }

  /** A throttled or unavailable service is asked again by any method, one that failed only for a read,
      and any other answer stands. */
  lemma RetryableMeans(m: Method, status: nat)
    ensures status in {429, 503} ==> Retryable(m, status)
    ensures status in {500, 502, 504} ==> (Retryable(m, status) <==> m == Get)
    ensures status !in {429, 500, 502, 503, 504} ==> !Retryable(m, status)
  {
  }

  /** The wait is what the service asked for, or a second and then two, and never over four. */
  lemma RetryWaitMeans(retryAfter: Option<nat>, attempt: nat)
    requires 1 <= attempt <= 2
    ensures RetryWait(retryAfter, attempt) ==
            match retryAfter
            case Some(seconds) => if seconds <= 4 then 1000 * seconds else 4000
            case None => if attempt == 1 then 1000 else 2000
  {
  }

  /** The wait after an attempt that is answered. */
  function WaitAfter(replies: nat -> Reply, attempt: nat): nat
    requires attempt >= 1
  {
    if replies(attempt).Answer? then RetryWait(replies(attempt).retryAfter, attempt) else 0
  }

  /** Whether an attempt's reply, by its number, has the client try again. */
  predicate TriesAgain(m: Method, replies: nat -> Reply, attempt: nat) {
    attempt < ATTEMPTS && replies(attempt).Answer? && Retryable(m, replies(attempt).status)
  }

  /** How many of the first attempts took effect. */
  function TookEffect(replies: nat -> Reply, attempts: nat): nat {
    if attempts == 0 then 0
    else TookEffect(replies, attempts - 1) + if replies(attempts).processed then 1 else 0
  }

  /** Throttled and unavailable requests weren't processed. */
  ghost predicate Unprocessed(replies: nat -> Reply) {
    forall n: nat :: replies(n).Answer? && (replies(n).status == 429 || replies(n).status == 503) ==> !replies(n).processed
  }

  /** Attempts are numbered from 1. The request is sent until a reply isn't to be retried, at most
      three times, waiting at most eight seconds in all, and a write takes effect at most once. */
  method Send(m: Method, replies: nat -> Reply) returns (result: Option<Reply>, attempts: nat, waited: nat)
    ensures 1 <= attempts <= 3 && waited <= 8000
    ensures waited == (if attempts >= 2 then WaitAfter(replies, 1) else 0) +
                      (if attempts >= 3 then WaitAfter(replies, 2) else 0)
    ensures attempts < 3 && replies(attempts).Answer? ==>
              replies(attempts).status !in {429, 503} && (m == Get ==> replies(attempts).status !in {500, 502, 504})
    ensures !TriesAgain(m, replies, attempts)
    ensures forall n: nat :: 1 <= n < attempts ==> TriesAgain(m, replies, n)
    ensures result == if replies(attempts).Answer? then Some(replies(attempts)) else None
    ensures m != Get && Unprocessed(replies) ==> TookEffect(replies, attempts) <= 1
    ensures (forall n: nat :: replies(n).Answer? ==> replies(n).retryAfter.None?) ==> waited <= 3000
  {
    attempts, waited := 1, 0;
    while true
      invariant 1 <= attempts <= ATTEMPTS
      invariant waited <= (attempts - 1) * MAX_RETRY_WAIT
      invariant waited == (if attempts >= 2 then WaitAfter(replies, 1) else 0) +
                          (if attempts >= 3 then WaitAfter(replies, 2) else 0)
      invariant forall n: nat :: 1 <= n < attempts ==> TriesAgain(m, replies, n)
      invariant m != Get && Unprocessed(replies) ==> TookEffect(replies, attempts - 1) == 0
      invariant (forall n: nat :: replies(n).Answer? ==> replies(n).retryAfter.None?) ==>
                  waited == if attempts == 1 then 0 else if attempts == 2 then 1000 else 3000
      decreases ATTEMPTS - attempts
    {
      var reply := replies(attempts);
      if reply.NoAnswer? {
        return None, attempts, waited;
      }
      if attempts < ATTEMPTS && Retryable(m, reply.status) {
        waited := waited + RetryWait(reply.retryAfter, attempts);
        attempts := attempts + 1;
      } else {
        return Some(reply), attempts, waited;
      }
    }
  }

  // ---------------------------------------------------------------------------------------
  // Pagination.

  datatype Link = NoLink | SameOrigin | Elsewhere

  datatype PageReply<T> = NotFound | Failure | Page(items: seq<T>, next: Link)

  predicate Continues<T>(reply: PageReply<T>) {
    reply.Page? && reply.next == SameOrigin
  }

  /** The items of the first pages. */
  function Items<T>(pages: nat -> PageReply<T>, n: nat): seq<T> {
    if n == 0 then []
    else Items(pages, n - 1) + if pages(n - 1).Page? then pages(n - 1).items else []
  }

  /** A list is either whole, following every link to the end, or an error; a collection that isn't
      there is empty. `last` is the first page that links nowhere within the service. */
  method List<T>(pages: nat -> PageReply<T>, last: nat) returns (result: Result<seq<T>>)
    requires !Continues(pages(last)) && forall n: nat :: n < last ==> Continues(pages(n))
    ensures result.Ok? <==> (pages(last).Page? && pages(last).next == NoLink) ||
                            (pages(last).NotFound? && Items(pages, last) == [])
    ensures result.Ok? ==> result.value == Items(pages, last + 1)
  {
    var items: seq<T> := [];
    var n := 0;
    while true
      invariant n <= last && items == Items(pages, n)
      decreases last - n
    {
      var reply := pages(n);
      if reply.NotFound? && |items| == 0 {
        return Ok(items);
      }
      if !reply.Page? {
        return Err;
      }
      items := items + reply.items;
      match reply.next
      case NoLink => return Ok(items);
      case Elsewhere => return Err;
      case SameOrigin => n := n + 1;
    }
  }
}
