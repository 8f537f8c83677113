/** MeteorEffectManager: `createMeteor` and the `animationend` handler each
    meteor carries. Together they keep a counter with a ceiling equal to the
    number of meteors attached to the container.

    A meteor element is told apart by an id drawn from a counter; the
    container is the sequence of attached ids in attachment order. The
    meteor's randomized geometry is not part of this model. */
module Meteors {

  const MAX_METEORS: nat := 8

  datatype MeteorField = MeteorField(activeMeteors: int, container: seq<nat>, nextId: nat)

  predicate Distinct(s: seq<nat>) {
    forall i, j :: 0 <= i < j < |s| ==> s[i] != s[j]
  }

  /** The invariant the two handlers keep: the counter stays within
      0..MAX_METEORS and equals the number of attached meteors, every
      meteor is attached once, and no id is handed out twice. */
  predicate Consistent(f: MeteorField) {
    && 0 <= f.activeMeteors <= MAX_METEORS
    && f.activeMeteors == |f.container|
    && Distinct(f.container)
    && forall i :: 0 <= i < |f.container| ==> f.container[i] < f.nextId
  }

  function Initial(): (f: MeteorField)
    ensures Consistent(f) && f.activeMeteors == 0 && f.container == []
  {
    MeteorField(0, [], 0)
  }

  /** `meteor.remove()`: the container without (the first occurrence of)
      the meteor. */
  function Remove(s: seq<nat>, x: nat): seq<nat> {
    if s == [] then []
    else if s[0] == x then s[1..] else [s[0]] + Remove(s[1..], x)
  }

  /** The position of the first occurrence of x in s. */
  function FirstIndex(s: seq<nat>, x: nat): (k: nat)
    requires x in s
    ensures k < |s| && s[k] == x && x !in s[..k]
    decreases |s|
  {
    if s[0] == x then 0
    else
      var k := FirstIndex(s[1..], x);
      assert s[..k + 1] == [s[0]] + s[1..][..k];
      k + 1
  }

  /** Remove cuts out exactly the first occurrence and keeps the other
      meteors in their order, as `meteor.remove()` does for the
      container's children. */
  lemma {:induction false} RemoveKeepsOrder(s: seq<nat>, x: nat)
    requires x in s
    ensures var k := FirstIndex(s, x); Remove(s, x) == s[..k] + s[k + 1..]
    decreases |s|
  {
    if s[0] == x {
      assert FirstIndex(s, x) == 0;
      assert s[..0] + s[1..] == s[1..];
    } else {
      var t := s[1..];
      var k := FirstIndex(t, x);
      assert FirstIndex(s, x) == k + 1 by {
        FirstIndexTail(s, x);
      }
      assert Remove(t, x) == t[..k] + t[k + 1..] by {
        RemoveKeepsOrder(t, x);
      }
      assert Remove(s, x) == [s[0]] + Remove(t, x) by {
        RemoveTail(s, x);
      }
      CutAfterHead(s, k);
    }
  }

  /** Past a different head, the first occurrence is one further on than
      in the tail. */
  lemma FirstIndexTail(s: seq<nat>, x: nat)
    requires x in s && s[0] != x
    ensures x in s[1..] && FirstIndex(s, x) == FirstIndex(s[1..], x) + 1
  {
    assert s == [s[0]] + s[1..];
  }

  /** Past a different head, Remove keeps the head and works on the tail. */
  lemma RemoveTail(s: seq<nat>, x: nat)
    requires s != [] && s[0] != x
    ensures Remove(s, x) == [s[0]] + Remove(s[1..], x)
  {
  }

  /** Cutting out position k of the tail is cutting out position k + 1 of
      the whole sequence. */
  lemma CutAfterHead(s: seq<nat>, k: nat)
    requires k + 1 < |s|
    ensures s[..k + 1] + s[k + 2..] == [s[0]] + (s[1..][..k] + s[1..][k + 1..])
  {
    var t := s[1..];
    assert s[..k + 1] == [s[0]] + t[..k];
    assert s[k + 2..] == t[k + 1..];
  }

  /** Detaching a meteor takes exactly one copy of it out of the container
      and leaves a container without it as it was. */
  lemma {:induction false} RemoveCounts(s: seq<nat>, x: nat)
    ensures multiset(Remove(s, x)) == multiset(s) - multiset{x}
    ensures x in s ==> |Remove(s, x)| == |s| - 1
    ensures x !in s ==> Remove(s, x) == s
    decreases |s|
  {
    if s != [] {
      var t := s[1..];
      assert s == [s[0]] + t;
      assert multiset(s) == multiset{s[0]} + multiset(t);
      if s[0] != x {
        RemoveCounts(t, x);
        assert x in s <==> x in t;
        assert Remove(s, x) == [s[0]] + Remove(t, x);
      }
    }
  }

  lemma DistinctSplit(s: seq<nat>)
    requires Distinct(s) && s != []
    ensures Distinct(s[1..]) && s[0] !in s[1..]
  {
    var t := s[1..];
    forall i, j | 0 <= i < j < |t| ensures t[i] != t[j] {
      assert t[i] == s[i + 1] && t[j] == s[j + 1];
    }
    forall k | 0 <= k < |t| ensures t[k] != s[0] {
      assert t[k] == s[k + 1];
    }
  }

  lemma DistinctCons(x: nat, t: seq<nat>)
    requires Distinct(t) && x !in t
    ensures Distinct([x] + t)
  {
    var r := [x] + t;
    forall i, j | 0 <= i < j < |r| ensures r[i] != r[j] {
      assert r[j] == t[j - 1];
      if i > 0 {
        assert r[i] == t[i - 1];
      }
    }
  }

  lemma {:induction false} RemoveKeepsDistinct(s: seq<nat>, x: nat)
    requires Distinct(s)
    ensures Distinct(Remove(s, x)) && x !in Remove(s, x)
    decreases |s|
  {
    if s != [] {
      DistinctSplit(s);
      if s[0] != x {
        RemoveKeepsDistinct(s[1..], x);
        var rest := Remove(s[1..], x);
        assert s[0] !in rest by {
          RemoveCounts(s[1..], x);
          assert s[0] !in multiset(s[1..]);
          assert multiset(rest)[s[0]] <= multiset(s[1..])[s[0]] == 0;
        }
        DistinctCons(s[0], rest);
      }
    }
  }

  /** createMeteor: nothing happens at the ceiling; otherwise the counter
      goes up by one and one new meteor is attached after the others. */
  function Create(f: MeteorField): MeteorField {
    if f.activeMeteors >= MAX_METEORS then f
    else MeteorField(f.activeMeteors + 1, f.container + [f.nextId], f.nextId + 1)
  }

  /** The `animationend` handler of an attached meteor: detach it and count
      it out. */
  function AnimationEnd(f: MeteorField, meteor: nat): MeteorField
    requires meteor in f.container
  {
    MeteorField(f.activeMeteors - 1, Remove(f.container, meteor), f.nextId)
  }

  lemma CreateKeepsConsistent(f: MeteorField)
    requires Consistent(f)
    ensures var g := Create(f);
      Consistent(g)
      && (f.activeMeteors >= MAX_METEORS ==> g == f)
      && (f.activeMeteors < MAX_METEORS ==>
            g.activeMeteors == f.activeMeteors + 1
            && g.container == f.container + [f.nextId] && f.nextId !in f.container)
  {
    if f.activeMeteors < MAX_METEORS {
      var c := f.container + [f.nextId];
      forall i, j | 0 <= i < j < |c| ensures c[i] != c[j] {
        assert c[i] == f.container[i];
      }
    }
  }

  lemma AnimationEndKeepsConsistent(f: MeteorField, meteor: nat)
    requires Consistent(f) && meteor in f.container
    ensures var g := AnimationEnd(f, meteor);
      Consistent(g)
      && g.activeMeteors == f.activeMeteors - 1
      && meteor !in g.container
      && multiset(g.container) == multiset(f.container) - multiset{meteor}
  {
    RemoveKeepsDistinct(f.container, meteor);
    RemoveCounts(f.container, meteor);
    var r := Remove(f.container, meteor);
    forall i | 0 <= i < |r| ensures r[i] < f.nextId {
      assert r[i] in multiset(r);
      assert r[i] in multiset(f.container);
    }
  }

  /** What reaches the manager: a firing of the creation interval, or the
      end of one meteor's animation. */
  datatype MeteorEvent = IntervalTick | AnimationEnded(meteor: nat)

  /** An `animationend` only comes from a meteor that is still attached. */
  predicate Enabled(f: MeteorField, e: MeteorEvent) {
    e.AnimationEnded? ==> e.meteor in f.container
  }

  function Step(f: MeteorField, e: MeteorEvent): MeteorField
    requires Enabled(f, e)
  {
    match e
    case IntervalTick => Create(f)
    case AnimationEnded(m) => AnimationEnd(f, m)
  }

  predicate Admissible(f: MeteorField, events: seq<MeteorEvent>)
    decreases |events|
  {
    events == [] || (Enabled(f, events[0]) && Admissible(Step(f, events[0]), events[1..]))
  }

  function Run(f: MeteorField, events: seq<MeteorEvent>): MeteorField
    requires Admissible(f, events)
    decreases |events|
  {
    if events == [] then f else Run(Step(f, events[0]), events[1..])
  }

  /** Over any sequence of creations and animation ends of attached meteors
      the counter stays within 0..MAX_METEORS and equals the number of
      attached meteors. */
  lemma {:induction false} RunKeepsConsistent(f: MeteorField, events: seq<MeteorEvent>)
    requires Consistent(f) && Admissible(f, events)
    ensures Consistent(Run(f, events))
    ensures 0 <= Run(f, events).activeMeteors <= MAX_METEORS
    ensures Run(f, events).activeMeteors == |Run(f, events).container|
    decreases |events|
  {
    if events != [] {
      match events[0] {
        case IntervalTick => CreateKeepsConsistent(f);
        case AnimationEnded(m) => AnimationEndKeepsConsistent(f, m);
      }
      RunKeepsConsistent(Step(f, events[0]), events[1..]);
    }
  }

  /** The manager after `MeteorEffectManager.init`. */
  class MeteorEffectManager {
    var activeMeteors: int
    var container: seq<nat>
    var nextId: nat

    function State(): MeteorField
      reads this
    {
      MeteorField(activeMeteors, container, nextId)
    }

    ghost predicate Valid()
      reads this
    {
      Consistent(State())
    }

    constructor ()
      ensures Valid() && State() == Initial()
    {
      activeMeteors := 0;
      container := [];
      nextId := 0;
    }

    method CreateMeteor()
      requires Valid()
      modifies this
      ensures Valid() && State() == Create(old(State()))
      ensures old(activeMeteors) >= MAX_METEORS ==> unchanged(this)
      ensures old(activeMeteors) < MAX_METEORS ==>
        activeMeteors == old(activeMeteors) + 1 && container == old(container) + [old(nextId)]
    {
      if activeMeteors >= MAX_METEORS {
        return;
      }
      CreateKeepsConsistent(State());
      activeMeteors := activeMeteors + 1;
      var meteor := nextId;
      nextId := nextId + 1;
      container := container + [meteor];
    }

    /** The `animationend` listener registered on `meteor`. */
    method OnAnimationEnd(meteor: nat)
      requires Valid() && meteor in container
      modifies this
      ensures Valid() && State() == AnimationEnd(old(State()), meteor)
      ensures activeMeteors == old(activeMeteors) - 1 && meteor !in container
    {
      AnimationEndKeepsConsistent(State(), meteor);
      container := Remove(container, meteor);
      activeMeteors := activeMeteors - 1;
    }
  }
}
