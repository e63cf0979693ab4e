/** The order of settlement events in a backup: a depth-first walk that puts the event that another one
    corrects before it, and throws at an unknown target or a cycle. */
module CorrectionChains {
  import opened Options
  import opened StableSort

  /** The id of an event and the id of the event it corrects. */
  datatype Links<!K, !E> = Links(id: E -> K, corrects: E -> Option<K>)

  /** `byId.get(id)`: of several events with one id the last. */
  function Target<K(==), E>(events: seq<E>, l: Links<K, E>, id: K): (r: Option<E>)
    ensures r.Some? ==> r.value in events && l.id(r.value) == id
  {
    if events == [] then None
    else if l.id(events[|events| - 1]) == id then Some(events[|events| - 1])
    else Target(events[..|events| - 1], l, id)
  }

  ghost function IdsOf<K, E>(events: seq<E>, l: Links<K, E>): set<K> { set i | 0 <= i < |events| :: l.id(events[i]) }

  predicate Listed<K(==), E>(events: seq<E>, l: Links<K, E>, id: K) { exists i :: 0 <= i < |events| && l.id(events[i]) == id }

  lemma FewerLeft<K, E>(events: seq<E>, l: Links<K, E>, e: E, visiting: set<K>)
    requires e in events && l.id(e) !in visiting
    ensures |IdsOf(events, l) - (visiting + {l.id(e)})| < |IdsOf(events, l) - visiting|
  {
    var left, fewer := IdsOf(events, l) - visiting, IdsOf(events, l) - (visiting + {l.id(e)});
    var i :| 0 <= i < |events| && events[i] == e;
    assert l.id(events[i]) in IdsOf(events, l);
    assert l.id(e) in left && fewer == left - {l.id(e)};
  }

  /** `visit(event)`, given the ids being visited and what is ordered so far. */
  function Visit<K(==), E>(events: seq<E>, l: Links<K, E>, e: E, visiting: set<K>, ordered: seq<E>): (r: Option<seq<E>>)
    requires e in events
    ensures r.Some? ==> forall i :: 0 <= i < |r.value| ==> r.value[i] in ordered || r.value[i] in events
    decreases |IdsOf(events, l) - visiting|
  {
    if Listed(ordered, l, l.id(e)) then Some(ordered)
    else if l.id(e) in visiting then None
    else
      match l.corrects(e)
      case None => Some(ordered + [e])
      case Some(c) =>
        match Target(events, l, c)
        case None => None
        case Some(t) =>
          FewerLeft(events, l, e, visiting);
          match Visit(events, l, t, visiting + {l.id(e)}, ordered)
          case None => None
          case Some(o) => Some(o + [e])
  }

  /** The first `n` events visited in order. */
  function VisitAll<K(==), E>(events: seq<E>, l: Links<K, E>, n: nat): (r: Option<seq<E>>)
    requires n <= |events|
    ensures r.Some? ==> forall i :: 0 <= i < |r.value| ==> r.value[i] in events
  {
    if n == 0 then Some([])
    else
      match VisitAll(events, l, n - 1)
      case None => None
      case Some(o) => Visit(events, l, events[n - 1], {}, o)
  }

  function Arranged<K(==), E>(events: seq<E>, l: Links<K, E>): Option<seq<E>> { VisitAll(events, l, |events|) }

  /** The loop over the events sorted by id. */
  method OrderSettlementEvents<K(==), E(==)>(events: seq<E>, l: Links<K, E>) returns (r: Option<seq<E>>)
    ensures r == Arranged(events, l)
  {
    var ordered: seq<E> := [];
    for n := 0 to |events|
      invariant VisitAll(events, l, n) == Some(ordered)
    {
      var next := Visit(events, l, events[n], {}, ordered);
      if next.None? {
        Refused(events, l, n + 1, |events|);
        return None;
      }
      ordered := next.value;
    }
    return Some(ordered);
  }

  lemma {:induction false} Refused<K, E>(events: seq<E>, l: Links<K, E>, n: nat, m: nat)
    requires n <= m <= |events| && VisitAll(events, l, n).None?
    ensures VisitAll(events, l, m).None?
  {
    if n < m { Refused(events, l, n, m - 1); }
  }

  // ---------------------------------------------------------------- what the order means

  ghost predicate DistinctIds<K(!new), E>(events: seq<E>, l: Links<K, E>) {
    forall i, j :: 0 <= i < j < |events| ==> l.id(events[i]) != l.id(events[j])
  }

  lemma SameEvent<K(!new), E>(events: seq<E>, l: Links<K, E>, a: E, b: E)
    requires DistinctIds(events, l) && a in events && b in events && l.id(a) == l.id(b)
    ensures a == b
  {
    var i :| 0 <= i < |events| && events[i] == a;
    var j :| 0 <= j < |events| && events[j] == b;
    assert !(i < j) && !(j < i);
  }

  /** After `n` corrections back there is an event that corrects nothing. */
  predicate Ends<K(==), E>(events: seq<E>, l: Links<K, E>, e: E, n: nat) {
    match l.corrects(e)
    case None => n == 0
    case Some(c) => n > 0 && Target(events, l, c).Some? && Ends(events, l, Target(events, l, c).value, n - 1)
  }

  ghost predicate HasEnd<K(!new), E>(events: seq<E>, l: Links<K, E>, e: E) { exists n: nat :: Ends(events, l, e, n) }

  /** No event's chain of corrections leads to an unknown event or around in a circle. */
  ghost predicate Grounded<K(!new), E(!new)>(events: seq<E>, l: Links<K, E>) {
    forall e :: e in events ==> HasEnd(events, l, e)
  }

  lemma {:induction false} EndsOnce<K, E>(events: seq<E>, l: Links<K, E>, e: E, n: nat, m: nat)
    requires Ends(events, l, e, n) && Ends(events, l, e, m)
    ensures n == m
  {
    if n > 0 { EndsOnce(events, l, Target(events, l, l.corrects(e).value).value, n - 1, m - 1); }
  }

  /** The ids being visited are of events farther from the end of the chain. */
  ghost predicate Farther<K(!new), E(!new)>(events: seq<E>, l: Links<K, E>, visiting: set<K>, n: nat) {
    forall k :: k in visiting ==> exists w, m: nat :: w in events && l.id(w) == k && m > n && Ends(events, l, w, m)
  }

  lemma {:induction false} VisitSucceeds<K(!new), E(!new)>(events: seq<E>, l: Links<K, E>, e: E, visiting: set<K>, ordered: seq<E>, n: nat)
    requires e in events && DistinctIds(events, l) && Ends(events, l, e, n) && Farther(events, l, visiting, n)
    ensures Visit(events, l, e, visiting, ordered).Some?
    decreases n
  {
    if !Listed(ordered, l, l.id(e)) {
      if l.id(e) in visiting {
        var w, m: nat :| w in events && l.id(w) == l.id(e) && m > n && Ends(events, l, w, m);
        SameEvent(events, l, w, e);
        EndsOnce(events, l, e, n, m);
        assert false;
      }
      if l.corrects(e).Some? {
        var t := Target(events, l, l.corrects(e).value).value;
        assert Farther(events, l, visiting + {l.id(e)}, n - 1);
        VisitSucceeds(events, l, t, visiting + {l.id(e)}, ordered, n - 1);
      }
    }
  }

  /** A partial order: distinct known events, each after the one it corrects and with a chain that ends. */
  ghost predicate InOrder<K(!new), E(!new)>(events: seq<E>, l: Links<K, E>, ordered: seq<E>) {
    && DistinctIds(ordered, l)
    && (forall e :: e in ordered ==> e in events && HasEnd(events, l, e))
    && (forall i :: 0 <= i < |ordered| && l.corrects(ordered[i]).Some? ==> Listed(ordered[..i], l, l.corrects(ordered[i]).value))
  }

  lemma Appends<K(!new), E(!new)>(events: seq<E>, l: Links<K, E>, ordered: seq<E>, e: E)
    requires InOrder(events, l, ordered) && e in events && !Listed(ordered, l, l.id(e)) && HasEnd(events, l, e)
    requires l.corrects(e).Some? ==> Listed(ordered, l, l.corrects(e).value)
    ensures InOrder(events, l, ordered + [e])
  {
    var all := ordered + [e];
    assert all[..|ordered|] == ordered;
    forall i | 0 <= i < |all| && l.corrects(all[i]).Some? ensures Listed(all[..i], l, l.corrects(all[i]).value) {
      if i < |ordered| { assert all[..i] == ordered[..i] && all[i] == ordered[i]; }
    }
  }

  /** The ids that a visit adds are not among those being visited. */
  ghost predicate AddsOutside<K(!new), E>(l: Links<K, E>, ordered: seq<E>, o: seq<E>, visiting: set<K>) {
    ordered <= o && forall i :: |ordered| <= i < |o| ==> l.id(o[i]) !in visiting
  }

  lemma {:induction false} VisitMeaning<K(!new), E(!new)>(events: seq<E>, l: Links<K, E>, e: E, visiting: set<K>, ordered: seq<E>)
    requires e in events && DistinctIds(events, l) && InOrder(events, l, ordered) && Visit(events, l, e, visiting, ordered).Some?
    ensures var o := Visit(events, l, e, visiting, ordered).value;
      InOrder(events, l, o) && AddsOutside(l, ordered, o, visiting) && e in o
    decreases |IdsOf(events, l) - visiting|
  {
    hide InOrder;
    if Listed(ordered, l, l.id(e)) {
      FindsItself(events, l, ordered, e);
    } else if l.corrects(e).None? {
      assert Ends(events, l, e, 0);
      Appends(events, l, ordered, e);
    } else {
      var t := Target(events, l, l.corrects(e).value).value;
      FewerLeft(events, l, e, visiting);
      VisitMeaning(events, l, t, visiting + {l.id(e)}, ordered);
      var o := Visit(events, l, t, visiting + {l.id(e)}, ordered).value;
      StillUnlisted(l, ordered, o, visiting, e);
      ChainEnds(events, l, o, e, t);
      Appends(events, l, o, e);
    }
  }

  lemma FindsItself<K(!new), E(!new)>(events: seq<E>, l: Links<K, E>, ordered: seq<E>, e: E)
    requires DistinctIds(events, l) && InOrder(events, l, ordered) && e in events && Listed(ordered, l, l.id(e))
    ensures e in ordered
  {
    var i :| 0 <= i < |ordered| && l.id(ordered[i]) == l.id(e);
    assert ordered[i] in ordered;
    SameEvent(events, l, ordered[i], e);
  }

  lemma StillUnlisted<K(!new), E>(l: Links<K, E>, ordered: seq<E>, o: seq<E>, visiting: set<K>, e: E)
    requires AddsOutside(l, ordered, o, visiting + {l.id(e)}) && !Listed(ordered, l, l.id(e))
    ensures !Listed(o, l, l.id(e))
  {
    forall i | 0 <= i < |o| ensures l.id(o[i]) != l.id(e) {
      if i < |ordered| { assert ordered[i] == o[i]; }
    }
  }

  lemma ChainEnds<K(!new), E(!new)>(events: seq<E>, l: Links<K, E>, o: seq<E>, e: E, t: E)
    requires InOrder(events, l, o) && t in o && l.corrects(e).Some? && Target(events, l, l.corrects(e).value) == Some(t)
    ensures HasEnd(events, l, e) && Listed(o, l, l.corrects(e).value)
  {
    var n: nat :| Ends(events, l, t, n);
    assert Ends(events, l, e, n + 1);
    var i :| 0 <= i < |o| && o[i] == t;
    assert l.id(o[i]) == l.corrects(e).value;
  }

  lemma {:induction false} VisitAllMeaning<K(!new), E(!new)>(events: seq<E>, l: Links<K, E>, n: nat)
    requires n <= |events| && DistinctIds(events, l) && VisitAll(events, l, n).Some?
    ensures var o := VisitAll(events, l, n).value;
      InOrder(events, l, o) && forall i :: 0 <= i < n ==> events[i] in o
  {
    hide InOrder, DistinctIds, Visit;
    if n > 0 {
      VisitAllMeaning(events, l, n - 1);
      VisitMeaning(events, l, events[n - 1], {}, VisitAll(events, l, n - 1).value);
    } else {
      NothingOrdered(events, l);
    }
  }

  lemma NothingOrdered<K(!new), E(!new)>(events: seq<E>, l: Links<K, E>)
    ensures InOrder(events, l, [])
  {
  }

  lemma {:induction false} VisitAllSucceeds<K(!new), E(!new)>(events: seq<E>, l: Links<K, E>, n: nat)
    requires n <= |events| && DistinctIds(events, l) && Grounded(events, l)
    ensures VisitAll(events, l, n).Some?
  {
    if n > 0 {
      VisitAllSucceeds(events, l, n - 1);
      var e := events[n - 1];
      assert e in events && HasEnd(events, l, e);
      var k: nat :| Ends(events, l, e, k);
      VisitSucceeds(events, l, e, {}, VisitAll(events, l, n - 1).value, k);
    }
  }

  lemma {:induction false} CountsOnce<E>(s: seq<E>)
    requires NoDuplicates(s)
    ensures forall x :: multiset(s)[x] == if x in s then 1 else 0
  {
    if s != [] {
      CountsOnce(s[1..]);
      assert s == [s[0]] + s[1..];
      assert s[0] !in s[1..];
    }
  }

  /** With distinct ids, the order exists exactly when every chain of corrections ends. Then it is a
      rearrangement of the events in which each comes after the one it corrects. */
  lemma ArrangedMeaning<K(!new), E(!new)>(events: seq<E>, l: Links<K, E>)
    requires DistinctIds(events, l)
    ensures Arranged(events, l).Some? <==> Grounded(events, l)
    ensures Arranged(events, l).Some? ==> var o := Arranged(events, l).value;
      multiset(o) == multiset(events)
      && forall i :: 0 <= i < |o| && l.corrects(o[i]).Some? ==> Listed(o[..i], l, l.corrects(o[i]).value)
  {
    if Grounded(events, l) { VisitAllSucceeds(events, l, |events|); }
    if Arranged(events, l).Some? {
      VisitAllMeaning(events, l, |events|);
      var o := Arranged(events, l).value;
      forall e ensures e in o <==> e in events { if e in events { var i :| 0 <= i < |events| && events[i] == e; } }
      CountsOnce(o);
      CountsOnce(events);
      forall e ensures multiset(o)[e] == multiset(events)[e] { assert e in o <==> e in events; }
      assert multiset(o) == multiset(events);
    }
  }

  lemma {:induction false} TargetFound<K(!new), E(!new)>(events: seq<E>, l: Links<K, E>, e: E)
    requires DistinctIds(events, l) && e in events
    ensures Target(events, l, l.id(e)) == Some(e)
  {
    var init, last := events[..|events| - 1], events[|events| - 1];
    assert events == init + [last];
    if e != last {
      var i :| 0 <= i < |events| && events[i] == e;
      assert l.id(events[i]) != l.id(last);
      TargetFound(init, l, e);
    }
  }

  lemma SameTarget<K(!new), E(!new)>(a: seq<E>, b: seq<E>, l: Links<K, E>, id: K)
    requires DistinctIds(a, l) && DistinctIds(b, l) && forall e :: e in a <==> e in b
    ensures Target(a, l, id) == Target(b, l, id)
  {
    if Target(a, l, id).Some? { TargetFound(b, l, Target(a, l, id).value); }
    if Target(b, l, id).Some? { TargetFound(a, l, Target(b, l, id).value); }
  }

  lemma {:induction false} SameEnds<K(!new), E(!new)>(a: seq<E>, b: seq<E>, l: Links<K, E>, e: E, n: nat)
    requires DistinctIds(a, l) && DistinctIds(b, l) && forall e :: e in a <==> e in b
    ensures Ends(a, l, e, n) == Ends(b, l, e, n)
  {
    if l.corrects(e).Some? {
      SameTarget(a, b, l, l.corrects(e).value);
      if n > 0 && Target(a, l, l.corrects(e).value).Some? { SameEnds(a, b, l, Target(a, l, l.corrects(e).value).value, n - 1); }
    }
  }

  /** Whether the chains end does not depend on the order of the events. */
  lemma SameGrounded<K(!new), E(!new)>(a: seq<E>, b: seq<E>, l: Links<K, E>)
    requires DistinctIds(a, l) && DistinctIds(b, l) && forall e :: e in a <==> e in b
    ensures Grounded(a, l) <==> Grounded(b, l)
  {
    forall e | e in a ensures HasEnd(a, l, e) == HasEnd(b, l, e) {
      forall n: nat ensures Ends(a, l, e, n) == Ends(b, l, e, n) { SameEnds(a, b, l, e, n); }
    }
  }
}
