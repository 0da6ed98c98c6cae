/** The pipeline's promises when the feeds skip nothing: continuity, completeness, determinism. */
module EventTheorems {
  import opened Orderings
  import opened EventPipeline
  import opened EventJournal
  import opened EventContinuity

  /** The log events after `b` up to `c`, in log order. */
  ghost function Slice(log: seq<Event>, b: Option<EventId>, c: Option<EventId>): seq<Event> {
    if log == [] then []
    else
      var e := log[|log| - 1];
      Slice(log[..|log| - 1], b, c) + if After(b, e.id) && Upto(e.id, c) then [e] else []
  }

  lemma {:induction false} SliceContents(log: seq<Event>, b: Option<EventId>, c: Option<EventId>)
    requires LogSorted(log)
    ensures forall e :: e in Slice(log, b, c) <==> e in log && After(b, e.id) && Upto(e.id, c)
    ensures Increasing(Ids(Slice(log, b, c)))
  {
    if log != [] {
      var rest, e := log[..|log| - 1], log[|log| - 1];
      SliceContents(rest, b, c);
      assert log == rest + [e];
      var part := Slice(rest, b, c);
      forall i | 0 <= i < |part| ensures Before(part[i].id, e.id) {
        assert part[i] in rest;
        var k :| 0 <= k < |rest| && rest[k] == part[i];
        assert log[k] == part[i];
      }
    }
  }

  lemma HasMember(b: seq<Event>)
    ensures b == [] || exists e :: e in b
  {
    if b != [] { assert b[0] in b; }
  }

  /** Two increasing sequences with the same members are equal. */
  lemma {:induction false} SameMembers(a: seq<Event>, b: seq<Event>)
    requires Increasing(Ids(a)) && Increasing(Ids(b)) && forall e :: e in a <==> e in b
    ensures a == b
  {
    if a == [] {
      HasMember(b);
    } else {
      assert a[|a| - 1] in b;
      SameLast(a, b);
      var a', b' := a[..|a| - 1], b[..|b| - 1];
      forall e ensures e in a' <==> e in b' {
        Without(a, e);
        Without(b, e);
      }
      assert Increasing(Ids(a')) by {
        assert forall i :: 0 <= i < |a'| ==> Ids(a')[i] == Ids(a)[i];
      }
      assert Increasing(Ids(b')) by {
        assert forall i :: 0 <= i < |b'| ==> Ids(b')[i] == Ids(b)[i];
      }
      SameMembers(a', b');
      assert a == a' + [a[|a| - 1]] && b == b' + [b[|b| - 1]];
    }
  }

  lemma Without(a: seq<Event>, e: Event)
    requires a != [] && Increasing(Ids(a))
    ensures e in a[..|a| - 1] <==> e in a && e != a[|a| - 1]
  {
    var a' := a[..|a| - 1];
    if e in a' {
      var i :| 0 <= i < |a'| && a'[i] == e;
      assert Before(Ids(a)[i], Ids(a)[|a| - 1]);
      BeforeTransitive(e.id, a[|a| - 1].id, e.id);
    }
  }

  lemma SameLast(a: seq<Event>, b: seq<Event>)
    requires a != [] && b != [] && Increasing(Ids(a)) && Increasing(Ids(b)) && forall e :: e in a <==> e in b
    ensures a[|a| - 1] == b[|b| - 1]
  {
    var x, y := a[|a| - 1], b[|b| - 1];
    if x != y {
      assert x in b && y in a;
      var i :| 0 <= i < |b| && b[i] == x;
      var j :| 0 <= j < |a| && a[j] == y;
      assert Before(Ids(b)[i], Ids(b)[|b| - 1]) && Before(Ids(a)[j], Ids(a)[|a| - 1]);
      BeforeTransitive(x.id, y.id, x.id);
      assert false;
    }
  }

  /**
   In every state of every run with faithful feeds, across both lanes, duplicates, failed
   commits, page bounds, aborts and restarts: the events committed after the baseline are
   exactly the log events after it up to the cursor; a page is requested only when all
   before it is committed; a visible history row of such an event is a committed event;
   and a completed catch-up has committed the whole log it saw.
   */
  lemma NoGap<P(!new)>(w: World<P>, trace: seq<State<P>>, steps: seq<Step>, k: nat)
    requires GaplessRun(w, trace, steps) && k < |trace|
    ensures var s := trace[k]; var b := s.baseline;
            && (forall e :: e in s.log && After(b, e.id) && Upto(e.id, s.core.cursor)
                            <==> e in s.core.committed && After(b, e.id))
            && (s.logLane.Fetching? ==>
                  forall e :: e in s.log && After(b, e.id) && Upto(e.id, s.logLane.cursor) ==> e in s.core.committed)
            && (forall row :: row in s.core.history && row.applied && row.event in s.log && After(b, row.event.id) ==>
                                row.event in s.core.committed)
            && s.caughtUp <= |s.log| && forall e :: e in s.log[..s.caughtUp] && After(b, e.id) ==> e in s.core.committed
  {
    var s := trace[k];
    ContinuousAlways(w, trace, steps, k);
    JournalAlways(w, trace, steps, k);
    CommitsUpto(w, s.core);
    assert forall row :: row in s.core.history && row.applied ==> Upto(row.event.id, s.core.cursor);
  }

  lemma CommitsUpto<P(!new)>(w: World<P>, c: Core<P>)
    requires CommitsOk(w, c)
    ensures forall e :: e in c.committed ==> Upto(e.id, c.cursor) && After(w.start, e.id)
  {
    var n := |c.committed|;
    forall e | e in c.committed ensures Upto(e.id, c.cursor) && After(w.start, e.id) {
      var i :| 0 <= i < n && c.committed[i] == e;
      if i < n - 1 { assert Before(Ids(c.committed)[i], Ids(c.committed)[n - 1]); }
    }
  }

  /**
   Started from an applied cursor, such a run commits precisely the slice of the log
   between that cursor and the present one, in log order, and its projection is the fold
   of the reducers over that slice: the interleaving leaves no trace.
   */
  lemma ProjectionIsLogFold<P(!new)>(w: World<P>, trace: seq<State<P>>, steps: seq<Step>, k: nat)
    requires GaplessRun(w, trace, steps) && k < |trace| && w.start == trace[k].baseline
    ensures var s := trace[k]; var slice := Slice(s.log, w.start, s.core.cursor);
            s.core.committed == slice && s.core.projection == Fold(w.reduce, w.initial, slice)
  {
    var s := trace[k];
    ContinuousAlways(w, trace, steps, k);
    JournalAlways(w, trace, steps, k);
    NoGap(w, trace, steps, k);
    CommitsUpto(w, s.core);
    SliceContents(s.log, w.start, s.core.cursor);
    SameMembers(s.core.committed, Slice(s.log, w.start, s.core.cursor));
  }
}
