/** The scroll animator: the `IntersectionObserver` callback that schedules the
    `visible` class for an element the first time it intersects the viewport and
    then stops observing it.

    Elements are identified by number. The timer that adds the class is abstracted
    to "scheduled": `scheduled` lists, in order, the elements for which a reveal
    timer was started. */
module ScrollAnimator {

  /** One `IntersectionObserverEntry`: its target and `isIntersecting`. */
  datatype Entry = Entry(target: nat, isIntersecting: bool)

  /** The observer's targets and the reveals scheduled so far. */
  datatype Watch = Watch(observed: set<nat>, scheduled: seq<nat>)

  /** The callback's body for one entry. */
  function Step(w: Watch, e: Entry): Watch {
    if e.isIntersecting then Watch(w.observed - {e.target}, w.scheduled + [e.target]) else w
  }

  /** The callback's `entries.forEach`, in delivery order. */
  function Deliver(w: Watch, es: seq<Entry>): Watch
    decreases |es|
  {
    if es == [] then w else Deliver(Step(w, es[0]), es[1..])
  }

  /** The targets of the intersecting entries of a batch. */
  function Intersecting(es: seq<Entry>): set<nat> {
    set e | e in es && e.isIntersecting :: e.target
  }

  /** An assumption about the entries, stronger than what the browser promises:
      every intersecting entry's target is still observed when that entry is
      handled. It excludes a batch holding two intersecting entries for one target.
      Such a batch can occur, because `unobserve` does not drop entries already
      queued, and the callback then starts a second timer (`RepeatedEntrySchedulesTwice`). */
  ghost predicate FromObserved(w: Watch, es: seq<Entry>)
    decreases |es|
  {
    es == [] ||
    ((es[0].isIntersecting ==> es[0].target in w.observed) && FromObserved(Step(w, es[0]), es[1..]))
  }

  /** No element with a scheduled reveal is still observed. */
  ghost predicate Disjoint(w: Watch) {
    forall i :: 0 <= i < |w.scheduled| ==> w.scheduled[i] !in w.observed
  }

  /** No element has two reveals scheduled. */
  ghost predicate NoRepeats(w: Watch) {
    forall i, j :: 0 <= i < j < |w.scheduled| ==> w.scheduled[i] != w.scheduled[j]
  }

  /** Every scheduled element is scheduled once and is no longer observed. */
  ghost predicate OneShot(w: Watch) {
    NoRepeats(w) && Disjoint(w)
  }

  /** A batch unobserves exactly its intersecting targets, schedules a reveal for
      each of them and for nothing else, and keeps every earlier reveal in place:
      a reveal never reverts. */
  lemma {:induction false} DeliverEffect(w: Watch, es: seq<Entry>)
    ensures Deliver(w, es).observed == w.observed - Intersecting(es)
    ensures w.scheduled <= Deliver(w, es).scheduled
    ensures forall t :: t in Deliver(w, es).scheduled <==> t in w.scheduled || t in Intersecting(es)
    decreases |es|
  {
    if es != [] {
      var w' := Step(w, es[0]);
      DeliverEffect(w', es[1..]);
      assert es == [es[0]] + es[1..];
      assert Intersecting(es) == Intersecting([es[0]]) + Intersecting(es[1..]);
    }
  }

  /** With no assumption on the entries, every batch keeps the scheduled elements
      out of the observed set: an element with a reveal is never watched again. */
  lemma DisjointPreserved(w: Watch, es: seq<Entry>)
    requires Disjoint(w)
    ensures Disjoint(Deliver(w, es))
  {
    DeliverEffect(w, es);
    var r := Deliver(w, es);
    forall i | 0 <= i < |r.scheduled|
      ensures r.scheduled[i] !in r.observed
    {
      assert r.scheduled[i] in r.scheduled;
      if r.scheduled[i] in w.scheduled {
        var k :| 0 <= k < |w.scheduled| && w.scheduled[k] == r.scheduled[i];
      }
    }
  }

  /** A batch in which nothing intersects changes nothing. */
  lemma {:induction false} QuietBatch(w: Watch, es: seq<Entry>)
    requires forall i :: 0 <= i < |es| ==> !es[i].isIntersecting
    ensures Deliver(w, es) == w
    decreases |es|
  {
    if es != [] {
      QuietBatch(w, es[1..]);
    }
  }

  /** Under `FromObserved`, an element that is no longer observed is never
      processed again within the batch. */
  lemma {:induction false} UnobservedStaysDone(w: Watch, es: seq<Entry>, t: nat)
    requires t !in w.observed
    requires FromObserved(w, es)
    ensures t !in Deliver(w, es).observed
    ensures multiset(Deliver(w, es).scheduled)[t] == multiset(w.scheduled)[t]
    decreases |es|
  {
    if es != [] {
      var w' := Step(w, es[0]);
      assert multiset(w'.scheduled)[t] == multiset(w.scheduled)[t];
      UnobservedStaysDone(w', es[1..], t);
    }
  }

  /** Under `FromObserved`, every batch keeps the scheduled reveals free of
      repeats and disjoint from the observed set. */
  lemma {:induction false} OneShotPreserved(w: Watch, es: seq<Entry>)
    requires OneShot(w)
    requires FromObserved(w, es)
    ensures OneShot(Deliver(w, es))
    decreases |es|
  {
    if es != [] {
      var w' := Step(w, es[0]);
      if es[0].isIntersecting {
        forall i | 0 <= i < |w.scheduled|
          ensures w.scheduled[i] != es[0].target
        {
        }
      }
      OneShotPreserved(w', es[1..]);
    }
  }

  /** What the browser does promise: an entry is queued only for an observed
      target, and only the callback unobserves, so every entry of a batch is for
      a target that was observed when the batch began. An element unobserved
      before the batch gets no further reveal from it. */
  lemma {:induction false} UnobservedSkipped(w: Watch, es: seq<Entry>, t: nat)
    requires t !in w.observed
    requires forall i :: 0 <= i < |es| ==> es[i].target in w.observed
    ensures t !in Deliver(w, es).observed
    ensures multiset(Deliver(w, es).scheduled)[t] == multiset(w.scheduled)[t]
    decreases |es|
  {
    UnobservedSkippedFrom(w, w.observed, es, t);
  }

  /** `UnobservedSkipped` with the batch-start target set kept apart from the
      shrinking observed set. */
  lemma {:induction false} UnobservedSkippedFrom(w: Watch, start: set<nat>, es: seq<Entry>, t: nat)
    requires t !in w.observed && t !in start
    requires forall i :: 0 <= i < |es| ==> es[i].target in start
    ensures t !in Deliver(w, es).observed
    ensures multiset(Deliver(w, es).scheduled)[t] == multiset(w.scheduled)[t]
    decreases |es|
  {
    if es != [] {
      var w' := Step(w, es[0]);
      assert es[0].target in start;
      assert multiset(w'.scheduled)[t] == multiset(w.scheduled)[t];
      forall i | 0 <= i < |es[1..]| ensures es[1..][i].target in start {
        assert es[1..][i] == es[i + 1];
      }
      UnobservedSkippedFrom(w', start, es[1..], t);
    }
  }

  /** A batch that queued two intersecting entries for one target before the
      callback ran starts two timers for it: the no-repeat half of `OneShot` needs
      `FromObserved`, which this batch breaks. The `visible` class is still added
      once and never removed (`DeliverEffect`). */
  lemma RepeatedEntrySchedulesTwice()
    ensures Deliver(Watch({1}, []), [Entry(1, true), Entry(1, false), Entry(1, true)]).scheduled == [1, 1]
    ensures !OneShot(Deliver(Watch({1}, []), [Entry(1, true), Entry(1, false), Entry(1, true)]))
    ensures !FromObserved(Watch({1}, []), [Entry(1, true), Entry(1, false), Entry(1, true)])
  {
    var es := [Entry(1, true), Entry(1, false), Entry(1, true)];
    var w1 := Step(Watch({1}, []), es[0]);
    assert w1 == Watch({}, [1]);
    assert es[1..][1..] == [Entry(1, true)];
    assert Deliver(Watch({1}, []), es) == Watch({}, [1, 1]);
    var r := Deliver(Watch({1}, []), es);
    assert r.scheduled[0] == r.scheduled[1];
  }

  /** The observer object: `observe` and `unobserve` change its target set; the
      callback schedules reveals. */
  class RevealObserver {
    var observed: set<nat>
    var scheduled: seq<nat>

    function View(): Watch
      reads this
    {
      Watch(observed, scheduled)
    }

    /** The object invariant every callback keeps: no element with a scheduled
        reveal is still observed. The stronger `OneShot` is kept only for batches
        satisfying `FromObserved`. */
    ghost predicate Valid()
      reads this
    {
      Disjoint(View())
    }

    /** `new IntersectionObserver(callback, options)`: nothing observed yet. */
    constructor ()
      ensures Valid() && OneShot(View())
      ensures View() == Watch({}, [])
    {
      observed := {};
      scheduled := [];
    }

    /** `observer.observe(el)` for one `[data-animate]` element. The script makes
        these calls at load, before any callback runs, so nothing is scheduled yet
        and the observer stays valid. */
    method Observe(t: nat)
      modifies this
      ensures observed == old(observed) + {t}
      ensures scheduled == old(scheduled)
      ensures old(Valid()) && t !in old(scheduled) ==> Valid()
      ensures old(OneShot(View())) && t !in old(scheduled) ==> OneShot(View())
    {
      observed := observed + {t};
    }

    /** The callback, run on one batch of entries. */
    method OnEntries(entries: seq<Entry>)
      modifies this
      ensures old(Valid()) ==> Valid()
      ensures View() == Deliver(old(View()), entries)
      ensures old(OneShot(View())) && FromObserved(old(View()), entries) ==> OneShot(View())
    {
      ghost var w0 := View();
      if Valid() {
        DisjointPreserved(w0, entries);
      }
      if OneShot(w0) && FromObserved(w0, entries) {
        OneShotPreserved(w0, entries);
      }
      var i := 0;
      while i < |entries|
        invariant 0 <= i <= |entries|
        invariant Deliver(View(), entries[i..]) == Deliver(old(View()), entries)
      {
        var entry := entries[i];
        assert entries[i..][1..] == entries[i + 1..];
        if entry.isIntersecting {
          scheduled := scheduled + [entry.target];
          observed := observed - {entry.target};
        }
        i := i + 1;
      }
    }
  }
}
