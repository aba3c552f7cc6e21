/** The retry loop of a request that runs without a shared buffer (handlers/stream_http.go): which source is
    tried after a failure, and when the request ends. */
module Failover {
  import opened BufferPools
  import opened SourceWalk

  /** Exit codes of a proxied stream (proxy/constants.go). */
  const CLIENT_CLOSED := 0
  const SERVER_ERROR := 1
  const END_OF_FILE := 2
  const M3U8_PARSED := 3
  const M3U8_PARSE_ERROR := 4
  const INCOMPATIBLE := 5
  const COMPLETED := 6

  /** handleExitCode: whether the request is over, and whether the source is to be avoided. */
  function HandleExitCode(code: int): (r: (bool, bool))
    ensures !r.0 <==> code in {SERVER_ERROR, END_OF_FILE, M3U8_PARSE_ERROR, INCOMPATIBLE}
    ensures r.1 == !r.0
  {
    if code == INCOMPATIBLE || code == END_OF_FILE || code == SERVER_ERROR then (false, true)
    else if code == M3U8_PARSED || code == COMPLETED then (true, false)
    else if code == M3U8_PARSE_ERROR then (false, true)
    else (true, false)
  }

  /** One turn of the loop: what the load balancer says and, if it selects, how the stream ends. */
  datatype Round = NoSource | Streamed(index: Index, code: int) | ClientLeft(index: Index)

  datatype End = BadGateway | Answered | Disconnected

  /** `failed` are the sources to avoid, `hits` the penalised attempts since they were last cleared, in order. */
  datatype Request = Open(failed: set<Index>, hits: seq<Index>) | Over(end: End)

  function Turn(q: Request, r: Round): Request {
    match q
    case Over(_) => q
    case Open(failed, hits) =>
      match r
      case NoSource => if failed != {} then Open({}, []) else Over(BadGateway)
      case ClientLeft(_) => Over(Disconnected)
      case Streamed(index, code) =>
        var (done, penalize) := HandleExitCode(code);
        if done then Over(Answered)
        else if penalize then Open(failed + {index}, hits + [index])
        else q
  }

  function Run(q: Request, rounds: seq<Round>): Request {
    if rounds == [] then q else Turn(Run(q, rounds[..|rounds| - 1]), rounds[|rounds| - 1])
  }

  /** A stream that ends in one of the four failures. */
  predicate Failing(r: Round) {
    r.Streamed? && r.code in {SERVER_ERROR, END_OF_FILE, M3U8_PARSE_ERROR, INCOMPATIBLE}
  }

  /** The sources of the failing streams since the load balancer last had no source, in order. */
  function FailedSince(rounds: seq<Round>): seq<Index> {
    if rounds == [] then []
    else
      var before, r := FailedSince(rounds[..|rounds| - 1]), rounds[|rounds| - 1];
      if r.NoSource? then [] else if Failing(r) then before + [r.index] else before
  }

  /** How round r ends a request after the rounds `before`: in a bad gateway when no source is left and none has failed
      since that was last so; when the client leaves; or when a stream ends otherwise than by a failure. */
  function EndAt(before: seq<Round>, r: Round): Option<End> {
    match r
    case NoSource => if FailedSince(before) == [] then Some(BadGateway) else None
    case ClientLeft(_) => Some(Disconnected)
    case Streamed(_, _) => if Failing(r) then None else Some(Answered)
  }

  /** No round ends the request. */
  ghost predicate GoesOn(rounds: seq<Round>) {
    rounds == [] || (GoesOn(rounds[..|rounds| - 1]) && EndAt(rounds[..|rounds| - 1], rounds[|rounds| - 1]) == None)
  }

  /** Round k is the first one to end the request. */
  ghost predicate EndsAt(rounds: seq<Round>, k: nat) {
    k < |rounds| && GoesOn(rounds[..k]) && EndAt(rounds[..k], rounds[k]).Some?
  }

  lemma GoesOnOneMore(rounds: seq<Round>, r: Round)
    ensures GoesOn(rounds + [r]) <==> GoesOn(rounds) && EndAt(rounds, r) == None
  {
    assert (rounds + [r])[..|rounds|] == rounds;
  }

  /** Every run, told by its rounds: while it goes on, which sources were hit and are to be avoided. */
  lemma {:induction false} RunIs(rounds: seq<Round>)
    ensures Run(Open({}, []), rounds).Open? <==> GoesOn(rounds)
    ensures GoesOn(rounds) ==> Run(Open({}, []), rounds) == Open(SetOf(FailedSince(rounds)), FailedSince(rounds))
  {
    if rounds != [] {
      var front, r := rounds[..|rounds| - 1], rounds[|rounds| - 1];
      assert rounds == front + [r];
      RunIs(front);
      GoesOnOneMore(front, r);
    }
  }

  /** And the first round that ends it says how. */
  lemma RunEndsAt(rounds: seq<Round>, k: nat)
    requires EndsAt(rounds, k)
    ensures Run(Open({}, []), rounds) == Over(EndAt(rounds[..k], rounds[k]).value)
  {
    RunIs(rounds[..k]);
    assert rounds[..k + 1][..k] == rounds[..k];
    OverForGood(Open({}, []), rounds, k + 1);
  }

  lemma {:induction false} OverForGood(q: Request, rounds: seq<Round>, i: nat)
    requires i <= |rounds| && Run(q, rounds[..i]).Over?
    ensures Run(q, rounds) == Run(q, rounds[..i])
    decreases |rounds| - i
  {
    if i < |rounds| {
      assert rounds[..i + 1][..i] == rounds[..i];
      OverForGood(q, rounds, i + 1);
    } else {
      assert rounds[..i] == rounds;
    }
  }

  method HandleStreamWithoutSharedBuffer(rounds: seq<Round>) returns (q: Request)
    ensures q == Run(Open({}, []), rounds)
    ensures q.Open? <==> GoesOn(rounds)
    ensures q.Open? ==> q.hits == FailedSince(rounds) && q.failed == SetOf(FailedSince(rounds))
    ensures forall k: nat :: EndsAt(rounds, k) ==> q == Over(EndAt(rounds[..k], rounds[k]).value)
  {
    RunIs(rounds);
    forall k: nat | EndsAt(rounds, k)
      ensures Run(Open({}, []), rounds) == Over(EndAt(rounds[..k], rounds[k]).value)
    {
      RunEndsAt(rounds, k);
    }
    var failedIndexes: set<Index> := {};
    var hits: seq<Index> := [];
    for i := 0 to |rounds|
      invariant Run(Open({}, []), rounds[..i]) == Open(failedIndexes, hits)
    {
      assert rounds[..i + 1][..i] == rounds[..i];
      var ended := false;
      match rounds[i] {
        case NoSource =>
          if failedIndexes != {} {
            failedIndexes, hits := {}, [];
            continue;
          }
          q, ended := Over(BadGateway), true;
        case ClientLeft(_) =>
          q, ended := Over(Disconnected), true;
        case Streamed(index, code) =>
          var (done, penalize) := HandleExitCode(code);
          if penalize {
            failedIndexes, hits := failedIndexes + {index}, hits + [index];
          }
          if done {
            q, ended := Over(Answered), true;
          }
      }
      if ended {
        OverForGood(Open({}, []), rounds, i + 1);
        return;
      }
    }
    assert rounds[..|rounds|] == rounds;
    q := Open(failedIndexes, hits);
  }

  /** A selected source that is one to avoid means that every usable source is one to avoid. */
  lemma AvoidedOnlyWhenAllAre(indexes: seq<Index>, urls: Urls, failed: set<Index>, x: Index)
    requires x in Candidates(indexes, urls, failed)
    ensures x in Candidates(indexes, urls, {})
    ensures x in failed ==> forall y :: y in Candidates(indexes, urls, {}) ==> y in failed
  {
    CandidatesAre(indexes, urls, failed);
    CandidatesAre(indexes, urls, {});
  }

  function Min(a: nat, b: nat): nat { if a < b then a else b }

  function SetOf(xs: seq<Index>): set<Index> { set x | x in xs }

  /** While the request goes on, the load balancer selects among its candidates, less the sources that failed. */
  ghost predicate Selects(indexes: seq<Index>, urls: Urls, before: seq<Round>, r: Round) {
    GoesOn(before) && !r.NoSource? ==> r.index in Candidates(indexes, urls, SetOf(FailedSince(before)))
  }

  ghost predicate AllSelect(indexes: seq<Index>, urls: Urls, rounds: seq<Round>) {
    rounds == [] ||
    (AllSelect(indexes, urls, rounds[..|rounds| - 1]) && Selects(indexes, urls, rounds[..|rounds| - 1], rounds[|rounds| - 1]))
  }

  /** Only usable sources are hit, and the first hits, as many as there are usable sources, are distinct. */
  ghost predicate NoneHitTwice(usable: set<Index>, hits: seq<Index>) {
    SetOf(hits) <= usable && Distinct(hits[..Min(|hits|, |usable|)])
  }

  /** Along every run of retries of one request, with the sources fixed: a penalised attempt repeats a source
      only when all k usable sources have failed since the last clear, so the first k failing streams
      after a clear are of k distinct sources. */
  lemma {:induction false} EachSourceOnceBeforeAnyTwice(indexes: seq<Index>, urls: Urls, rounds: seq<Round>)
    requires AllSelect(indexes, urls, rounds) && GoesOn(rounds)
    ensures NoneHitTwice(SetOf(Candidates(indexes, urls, {})), FailedSince(rounds))
  {
    if rounds != [] {
      var front, r := rounds[..|rounds| - 1], rounds[|rounds| - 1];
      EachSourceOnceBeforeAnyTwice(indexes, urls, front);
      if Failing(r) {
        SelectedIsNew(indexes, urls, FailedSince(front), r.index);
      }
    }
  }

  lemma SelectedIsNew(indexes: seq<Index>, urls: Urls, hits: seq<Index>, x: Index)
    requires NoneHitTwice(SetOf(Candidates(indexes, urls, {})), hits) && x in Candidates(indexes, urls, SetOf(hits))
    ensures NoneHitTwice(SetOf(Candidates(indexes, urls, {})), hits + [x])
  {
    AvoidedOnlyWhenAllAre(indexes, urls, SetOf(hits), x);
    HitIsNew(SetOf(Candidates(indexes, urls, {})), hits, x);
  }

  lemma HitIsNew(usable: set<Index>, hits: seq<Index>, x: Index)
    requires NoneHitTwice(usable, hits) && x in usable && (x in hits ==> usable <= SetOf(hits))
    ensures NoneHitTwice(usable, hits + [x])
  {
    var hits' := hits + [x];
    assert SetOf(hits') == SetOf(hits) + {x};
    if |hits| < |usable| {
      assert hits[..|hits|] == hits;
      DistinctSize(hits, SetOf(hits));
      assert x in hits ==> SetOf(hits) == usable;
      assert hits'[..Min(|hits'|, |usable|)] == hits';
    } else {
      assert hits'[..|usable|] == hits[..|usable|];
    }
  }

  /** Two load-balancer failures in a row end the request, wherever in a run they come. */
  lemma TwoFailuresEnd(q: Request, rounds: seq<Round>, i: nat)
    requires i + 1 < |rounds| && rounds[i] == rounds[i + 1] == NoSource
    ensures Run(q, rounds).Over?
  {
    assert rounds[..i + 1][..i] == rounds[..i] && rounds[..i + 2][..i + 1] == rounds[..i + 1];
    assert Run(q, rounds[..i + 2]) == Turn(Turn(Run(q, rounds[..i]), NoSource), NoSource);
    OverForGood(q, rounds, i + 2);
  }
}
