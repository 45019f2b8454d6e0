/** Waiting for an event, and asserting that none comes, over a timed source. */
module Expect {
  import opened Common

  /** What a source yields and when: an event, or `None` when it closes. */
  datatype Arrival<T> = Arrival(at: nat, event: Option<T>)

  datatype Found<T> = Event(event: T) | Deadline | Closed

  datatype Quiet<T> = Silence | Unexpected(event: T) | SourceClosed

  /** An arrival that ends a wait. */
  predicate Ends<T>(a: Arrival<T>, pred: T -> bool) {
    a.event.None? || pred(a.event.value)
  }

  /** The first `k` arrivals come in time and are all passed over. */
  ghost predicate PassedOver<T>(queue: seq<Arrival<T>>, limit: nat, pred: T -> bool, k: nat) {
    k <= |queue| && forall i :: 0 <= i < k ==> queue[i].at <= limit && !Ends(queue[i], pred)
  }

  /** Arrival `k` comes in time and ends the wait. */
  ghost predicate EndedBy<T>(queue: seq<Arrival<T>>, limit: nat, pred: T -> bool, k: nat) {
    PassedOver(queue, limit, pred, k) && k < |queue| && queue[k].at <= limit && Ends(queue[k], pred)
  }

  /** Nothing that comes in time ends the wait: only the timer can. */
  ghost predicate TimedOutAfter<T>(queue: seq<Arrival<T>>, limit: nat, pred: T -> bool, k: nat) {
    PassedOver(queue, limit, pred, k) && (k == |queue| || queue[k].at > limit)
  }

  /** What `expect_matching` reports, having consumed this many arrivals. */
  ghost predicate MatchingSays<T>(queue: seq<Arrival<T>>, limit: nat, pred: T -> bool, found: Found<T>, consumed: nat) {
    match found
    case Event(e) => consumed > 0 && EndedBy(queue, limit, pred, consumed - 1) && queue[consumed - 1].event == Some(e)
    case Closed => consumed > 0 && EndedBy(queue, limit, pred, consumed - 1) && queue[consumed - 1].event == None
    case Deadline => TimedOutAfter(queue, limit, pred, consumed)
  }

  /** What `expect_quiet` reports, having consumed this many arrivals. */
  ghost predicate QuietSays<T>(queue: seq<Arrival<T>>, limit: nat, pred: T -> bool, quiet: Quiet<T>, consumed: nat) {
    match quiet
    case Unexpected(e) =>
      consumed > 0 && EndedBy(queue, limit, pred, consumed - 1) && queue[consumed - 1].event == Some(e)
    case SourceClosed =>
      consumed > 0 && EndedBy(queue, limit, pred, consumed - 1) && queue[consumed - 1].event == None
    case Silence => TimedOutAfter(queue, limit, pred, consumed)
  }

  /** A source with its arrivals still to come; the timer polls it first on a tie. */
  class Source<T> {
    var queue: seq<Arrival<T>>

    constructor (queue: seq<Arrival<T>>)
      ensures this.queue == queue
    {
      this.queue := queue;
    }

    method ExpectMatching(deadline: nat, pred: T -> bool) returns (found: Found<T>, consumed: nat)
      modifies this
      ensures consumed <= |old(queue)| && queue == old(queue)[consumed..]
      ensures MatchingSays(old(queue), deadline, pred, found, consumed)
    {
      consumed := 0;
      while queue != [] && queue[0].at <= deadline
        invariant consumed <= |old(queue)| && queue == old(queue)[consumed..]
        invariant PassedOver(old(queue), deadline, pred, consumed)
        decreases |queue|
      {
        var next := queue[0].event;
        queue := queue[1..];
        consumed := consumed + 1;
        assert old(queue)[consumed - 1].event == next;
        if next.None? {
          return Closed, consumed;
        }
        if pred(next.value) {
          return Event(next.value), consumed;
        }
      }
      return Deadline, consumed;
    }

    method ExpectQuiet(window: nat, pred: T -> bool) returns (quiet: Quiet<T>, consumed: nat)
      modifies this
      ensures consumed <= |old(queue)| && queue == old(queue)[consumed..]
      ensures QuietSays(old(queue), window, pred, quiet, consumed)
    {
      consumed := 0;
      while queue != [] && queue[0].at <= window
        invariant consumed <= |old(queue)| && queue == old(queue)[consumed..]
        invariant PassedOver(old(queue), window, pred, consumed)
        decreases |queue|
      {
        var next := queue[0].event;
        queue := queue[1..];
        consumed := consumed + 1;
        assert old(queue)[consumed - 1].event == next;
        if next.None? {
          return SourceClosed, consumed;
        }
        if pred(next.value) {
          return Unexpected(next.value), consumed;
        }
      }
      return Silence, consumed;
    }
  }

  /** On one schedule the two are exact opposites: what one finds the other reports,
      silence is the other's deadline, a closed source is a closed source to both,
      and both have consumed the same arrivals. */
  lemma ExactOpposites<T>(queue: seq<Arrival<T>>, limit: nat, pred: T -> bool,
                          found: Found<T>, j: nat, quiet: Quiet<T>, k: nat)
    requires MatchingSays(queue, limit, pred, found, j) && QuietSays(queue, limit, pred, quiet, k)
    ensures j == k
    ensures found.Event? <==> quiet.Unexpected?
    ensures found.Event? && quiet.Unexpected? ==> found.event == quiet.event
    ensures found.Deadline? <==> quiet.Silence?
    ensures found.Closed? <==> quiet.SourceClosed?
  {
  }

  /** Silence is certified only by watching: every arrival up to the end of the
      window was an event, and none matched. */
  lemma SilenceMeansWatchedThroughout<T>(queue: seq<Arrival<T>>, limit: nat, pred: T -> bool,
                                         quiet: Quiet<T>, used: nat)
    requires forall i, j :: 0 <= i <= j < |queue| ==> queue[i].at <= queue[j].at
    requires QuietSays(queue, limit, pred, quiet, used)
    ensures quiet.Silence? <==>
            forall i :: 0 <= i < |queue| && queue[i].at <= limit ==> queue[i].event.Some? && !pred(queue[i].event.value)
  {
  }
}
