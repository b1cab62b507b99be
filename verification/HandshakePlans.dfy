/**
 Plans that lose a region and plans that do not, by the order of their calls: what every plan that
 does must have, a family of plans that do, and the exact condition for a client that may leave
 calls of its plan out.
 */
module HandshakePlans {
  import opened Bytes
  import opened Wire
  import opened Handshake
  import opened HandshakeBalance
  import opened HandshakeLag
  import opened HandshakeDrift

  // ---------------------------------------------------------------- what a plan must have

  /** Two FINISHED calls among the first `n`. */
  ghost predicate TwoFinished(plan: seq<Request>, n: nat)
    requires n <= |plan|
  {
    exists a, b :: 0 <= a < b < n && plan[a].FinishRequest? && plan[b].FinishRequest?
  }

  /** Then an INIT call that asks for `size`. */
  ghost predicate Opened(plan: seq<Request>, n: nat, size: nat)
    requires n <= |plan|
  {
    exists c :: 0 <= c < n && plan[c].InitRequest? && plan[c].info.cacheSize == size && TwoFinished(plan, c)
  }

  /** Then another FINISHED call. */
  ghost predicate GivenUp(plan: seq<Request>, n: nat, size: nat)
    requires n <= |plan|
  {
    exists d :: 0 <= d < n && plan[d].FinishRequest? && Opened(plan, d, size)
  }

  /** Two FINISHED calls, an INIT call, a FINISHED call and an INIT call for no more, in this order, others in between. */
  predicate Hazard(plan: seq<Request>, a: int, b: int, c: int, d: int, e: int) {
    && 0 <= a < b < c < d < e < |plan|
    && plan[a].FinishRequest? && plan[b].FinishRequest?
    && plan[c].InitRequest? && plan[d].FinishRequest? && plan[e].InitRequest?
    && plan[e].info.cacheSize <= plan[c].info.cacheSize
  }

  ghost predicate Hazardous(plan: seq<Request>) {
    exists a, b, c, d, e :: Hazard(plan, a, b, c, d, e)
  }

  lemma HazardFound(plan: seq<Request>, e: nat, size: nat)
    requires e < |plan| && plan[e].InitRequest? && plan[e].info.cacheSize <= size && GivenUp(plan, e, size)
    ensures Hazardous(plan)
  {
    var d :| 0 <= d < e && plan[d].FinishRequest? && Opened(plan, d, size);
    var c :| 0 <= c < d && plan[c].InitRequest? && plan[c].info.cacheSize == size && TwoFinished(plan, c);
    var a, b :| 0 <= a < b < c && plan[a].FinishRequest? && plan[b].FinishRequest?;
    assert Hazard(plan, a, b, c, d, e);
  }

  /** The call at or before which everything the server has handled was made. */
  function Bound(t: Tally): nat {
    if t.taken.Some? then t.taken.value else t.call
  }

  /** The client can read the reply it has, or has read it. */
  predicate Awaits(plan: seq<Request>, t: Tally) {
    0 < t.call <= |plan| && plan[t.call - 1].InitRequest? && t.reply.Here? && t.reply.size.Some?
  }

  /** A reply taken is one the server has sent; its region was opened after two FINISHED calls, and was given up if it is gone. */
  ghost predicate Traced(plan: seq<Request>, t: Tally) {
    && Sane(plan, t)
    && t.handled < Bound(t) + One(t.taken.None?)
    && t.call <= t.handled + t.finished + One(t.reply.Awaited?)
    && (t.finished >= 1 ==> exists a :: 0 <= a < t.handled && plan[a].FinishRequest?)
    && (t.finished >= 2 ==> TwoFinished(plan, Bound(t)))
    && (t.finished >= 2 && t.region.Some? ==> Opened(plan, Bound(t), t.region.value))
    && (Awaits(plan, t) ==> t.region == t.reply.size || GivenUp(plan, t.call - 1, t.reply.size.value))
  }

  lemma ServeTraced(plan: seq<Request>, t: Tally)
    requires Traced(plan, t) && CanMove(plan, t, Serve)
    ensures Traced(plan, Moved(plan, t, Serve))
  {
    hide GivenUp;
    var o := t.taken.value;
    match plan[o - 1]
    case FinishRequest =>
      if Awaits(plan, t) && t.region == t.reply.size {
        assert t.finished >= 2 && Opened(plan, o - 1, t.region.value);
        GivesUp(plan, t);
      }
    case InitRequest(i) =>
      if t.finished >= 2 {
        assert TwoFinished(plan, o - 1);
      }
  }

  lemma GivesUp(plan: seq<Request>, t: Tally)
    requires Sane(plan, t) && t.taken.Some? && Awaits(plan, t) && t.region.Some?
    requires plan[t.taken.value - 1].FinishRequest? && Opened(plan, t.taken.value - 1, t.region.value)
    ensures GivenUp(plan, t.call - 1, t.region.value)
  {
  }

  lemma {:induction false} WalkTraced(plan: seq<Request>, ms: seq<Move>)
    requires Walk(plan, ms).Some?
    ensures Traced(plan, Walk(plan, ms).value)
  {
    hide GivenUp, Opened, TwoFinished;
    if ms != [] {
      WalkTraced(plan, ms[..|ms| - 1]);
      var t, m := Walk(plan, ms[..|ms| - 1]).value, ms[|ms| - 1];
      match m
      case Serve => ServeTraced(plan, t);
      case _ => OtherTraced(plan, t, m);
    }
  }

  lemma OtherTraced(plan: seq<Request>, t: Tally, m: Move)
    requires Traced(plan, t) && CanMove(plan, t, m) && m != Serve
    ensures Traced(plan, Moved(plan, t, m))
  {
    hide GivenUp;
  }

  /** A plan that drifts has the five calls. */
  lemma DriftsOnlyIfHazardous(plan: seq<Request>)
    requires Drifts(plan)
    ensures Hazardous(plan)
  {
    hide Hazardous, GivenUp;
    var t :| Reachable(plan, t) && Lost(plan, t);
    var ms :| Walk(plan, ms) == Some(t);
    WalkTraced(plan, ms);
    HazardFound(plan, t.call - 1, t.reply.size.value);
  }

  /** In every run of a plan without the five calls, size and flush type the client takes are the region's. */
  lemma FitsUnlessHazardous(w: World, es: seq<Event>)
    requires Initial(w) && Run(w, es).Some? && Run(w, es).value.faults.misfit
    ensures Hazardous(w.plan)
  {
    hide Run, ReadOffer, Encode, Hazardous;
    assert MayMisfit(w);
    MisfitIffDrifts(w);
    DriftsOnlyIfHazardous(w.plan);
  }

  // ---------------------------------------------------------------- a family of plans

  /** The tally after the first `n` calls were made, handled and answered one after the other. */
  function InStep(plan: seq<Request>, n: nat): Tally
    requires n <= |plan|
  {
    var region := if n == 0 || plan[n - 1].FinishRequest? then None else Some(plan[Opener(plan, n)].info.cacheSize);
    Tally(n, Here(region), None, n, Finishes(plan, n), region)
  }

  lemma {:induction false} StaysInStep(plan: seq<Request>, n: nat)
    requires n <= |plan|
    ensures Reachable(plan, InStep(plan, n))
  {
    hide Reachable;
    if n == 0 {
      ZeroReachable(plan);
    } else {
      StaysInStep(plan, n - 1);
      var a := Go(plan, InStep(plan, n - 1), Next);
      var b := Go(plan, a, Take);
      var c := Go(plan, b, Serve);
      var d := Go(plan, c, Get);
      assert d == InStep(plan, n);
    }
  }

  lemma Go(plan: seq<Request>, t: Tally, m: Move) returns (u: Tally)
    requires Reachable(plan, t) && CanMove(plan, t, m)
    ensures u == Moved(plan, t, m) && Reachable(plan, u)
  {
    Goes(plan, t, m);
    u := Moved(plan, t, m);
  }

  /** The next `k` calls take spare replies for their own. */
  lemma {:induction false} RunsAhead(plan: seq<Request>, t: Tally, k: nat)
    requires Reachable(plan, t) && t.reply.Here? && t.reply.size.Some? && t.region == t.reply.size
    requires t.call + k <= |plan| && t.call + k <= t.handled + t.finished
    ensures Reachable(plan, t.(call := t.call + k))
  {
    hide Reachable;
    if k == 0 {
      assert t.(call := t.call + k) == t;
    } else {
      RunsAhead(plan, t, k - 1);
      var a := Go(plan, t.(call := t.call + k - 1), Next);
      var b := Go(plan, a, Get);
      assert b == t.(call := t.call + k);
    }
  }

  /**
   A FINISHED call `f` right after an INIT one, and a later INIT call `j` that is answered by spare
   replies of earlier FINISHED calls alone, for no more than the region has: the client accepts a
   region the server gives up before the reply is read.
   */
  lemma LosesRegion(plan: seq<Request>, f: nat, j: nat)
    requires 0 < f < j < |plan|
    requires plan[f - 1].InitRequest? && plan[f].FinishRequest? && plan[j].InitRequest?
    requires j - f < Finishes(plan, f)
    requires plan[j].info.cacheSize <= plan[Opener(plan, f)].info.cacheSize
    ensures Drifts(plan)
  {
    hide Reachable;
    StaysInStep(plan, f);
    var a := Go(plan, InStep(plan, f), Next);
    var b := Go(plan, a, Take);
    var c := Go(plan, b, Get);
    RunsAhead(plan, c, j - f);
    var d := Go(plan, c.(call := j + 1), Serve);
    assert Lost(plan, d);
  }

  /**
   FINISHED, INIT, INIT, FINISHED, INIT, FINISHED, FINISHED, INIT: the third call's request leaves as a
   second FINISHED one, and earns the reply that the family above lacks.
   */
  lemma RequestLeavesAsAnother(plan: seq<Request>)
    requires |plan| == 8
    requires forall i | 0 <= i < 8 :: plan[i].FinishRequest? <==> i in {0, 3, 5, 6}
    requires plan[7].info.cacheSize <= plan[4].info.cacheSize
    ensures Drifts(plan)
  {
    hide Reachable;
    StaysInStep(plan, 2);
    var t := InStep(plan, 2);
    assert Finishes(plan, 2) == 1 by {
      assert Finishes(plan, 1) == 1;
    }
    t := Go(plan, t, Next);
    t := Go(plan, t, Get);
    t := Go(plan, t, Next);
    t := Go(plan, t, Take);
    t := Go(plan, t, Serve);
    t := Go(plan, t, Take);
    t := Go(plan, t, Serve);
    t := Go(plan, t, Get);
    t := Go(plan, t, Next);
    t := Go(plan, t, Take);
    t := Go(plan, t, Serve);
    t := Go(plan, t, Get);
    t := Go(plan, t, Next);
    t := Go(plan, t, Take);
    t := Go(plan, t, Get);
    RunsAhead(plan, t, 2);
    t := Go(plan, t.(call := 8), Serve);
    assert Lost(plan, t);
  }

  /** Two FINISHED calls, an INIT one, a FINISHED one and an INIT one for no more. */
  lemma FlushTypeCanDisagree(plan: seq<Request>)
    requires |plan| == 5 && Hazard(plan, 0, 1, 2, 3, 4)
    ensures Drifts(plan)
  {
    TwoFinishes(plan, 3);
    LosesRegion(plan, 3, 4);
  }

  lemma TwoFinishes(plan: seq<Request>, n: nat)
    requires n == 3 <= |plan| && plan[0].FinishRequest? && plan[1].FinishRequest?
    ensures Finishes(plan, n) >= 2
  {
    assert Finishes(plan, n - 2) == Finishes(plan, n - 3) + 1;
    assert Finishes(plan, n - 1) == Finishes(plan, n - 2) + 1;
  }

  // ---------------------------------------------------------------- a client that leaves calls out

  /** Places in a plan, in order. */
  predicate Places(plan: seq<Request>, at: seq<nat>) {
    && (forall i | 0 <= i < |at| :: at[i] < |plan|)
    && (forall i, j | 0 <= i < j < |at| :: at[i] < at[j])
  }

  /** The calls at these places, the others left out. */
  function Kept(plan: seq<Request>, at: seq<nat>): seq<Request>
    requires Places(plan, at)
  {
    seq(|at|, i requires 0 <= i < |at| => plan[at[i]])
  }

  ghost predicate DriftsInPart(plan: seq<Request>) {
    exists at :: Places(plan, at) && Drifts(Kept(plan, at))
  }

  /**
   A client that makes some or all of its plan's calls, in order, can lose a region if and only if the
   plan holds two FINISHED calls, an INIT one, a FINISHED one and an INIT one for no more, in this order.
   */
  lemma DriftsInPartIffHazardous(plan: seq<Request>)
    ensures DriftsInPart(plan) <==> Hazardous(plan)
  {
    hide Drifts;
    if DriftsInPart(plan) {
      var at :| Places(plan, at) && Drifts(Kept(plan, at));
      var q := Kept(plan, at);
      DriftsOnlyIfHazardous(q);
      var a, b, c, d, e :| Hazard(q, a, b, c, d, e);
      assert Hazard(plan, at[a], at[b], at[c], at[d], at[e]);
    }
    if Hazardous(plan) {
      var a, b, c, d, e :| Hazard(plan, a, b, c, d, e);
      FlushTypeCanDisagree(Kept(plan, [a, b, c, d, e]));
    }
  }
}
