/** The events of idlez/events/__init__.py: plain event records, and
    `ComponentEvent`, an event that holds at most one component per component
    class. */
module ComponentEvents {
  import opened Wrappers
  import Store
  import opened EventComponents

  /** The plain event records. */
  datatype PlainEvent =
    | LevelUpEvent(player: Store.Player)
    | SinglePlayerEvent(player: Store.Player, message: string, gainAmount: int)
    | TwoPlayerEvent(player: Store.Player, otherPlayer: Store.Player)
    | PlayerFightEvent(player: Store.Player, otherPlayer: Store.Player, playerWins: bool,
                       playerExpDiffAmount: int, otherPlayerExpDiffAmount: int)

  /** `NoSuchComponentError`, naming the class that was asked for. */
  datatype NoSuchComponentError = NoSuchComponentError(kind: ComponentKind)

  /** The map the constructor builds from its arguments: each component stored
      under its own class, a later one replacing an earlier one. */
  function Stored(comps: seq<Component>): map<ComponentKind, Component> {
    if |comps| == 0 then map[]
    else Stored(comps[..|comps| - 1])[comps[|comps| - 1].Kind() := comps[|comps| - 1]]
  }

  /** Some argument has class `k`. */
  predicate HasKind(comps: seq<Component>, k: ComponentKind) {
    exists i :: 0 <= i < |comps| && comps[i].Kind() == k
  }

  /** `c` is the last argument of class `k`. */
  predicate LastOfKind(comps: seq<Component>, k: ComponentKind, c: Component) {
    exists i :: 0 <= i < |comps| && comps[i] == c && c.Kind() == k
      && forall j :: i < j < |comps| ==> comps[j].Kind() != k
  }

  /** A class is stored exactly when some argument has it. */
  lemma {:induction false} StoredKeys(comps: seq<Component>, k: ComponentKind)
    ensures k in Stored(comps) <==> HasKind(comps, k)
  {
    if |comps| > 0 {
      var n := |comps| - 1;
      var init := comps[..n];
      StoredKeys(init, k);
      if comps[n].Kind() != k {
        if HasKind(init, k) {
          var i :| 0 <= i < |init| && init[i].Kind() == k;
          assert comps[i] == init[i];
        }
        if HasKind(comps, k) {
          var i :| 0 <= i < |comps| && comps[i].Kind() == k;
          assert init[i] == comps[i];
        }
      }
    }
  }

  /** What is stored under a class is the last argument of that class. */
  lemma {:induction false} StoredLast(comps: seq<Component>, k: ComponentKind)
    requires k in Stored(comps)
    ensures LastOfKind(comps, k, Stored(comps)[k])
  {
    var n := |comps| - 1;
    var init := comps[..n];
    if comps[n].Kind() == k {
      assert Stored(comps)[k] == comps[n];
    } else {
      StoredLast(init, k);
      var c := Stored(init)[k];
      assert Stored(comps)[k] == c;
      var i :| 0 <= i < |init| && init[i] == c && c.Kind() == k
        && forall j :: i < j < |init| ==> init[j].Kind() != k;
      assert comps[i] == c;
      forall j | i < j < |comps|
        ensures comps[j].Kind() != k
      {
        if j < n {
          assert comps[j] == init[j];
        }
      }
    }
  }

  class ComponentEvent {
    var components: map<ComponentKind, Component>
    /** The constructor's arguments, in order. */
    ghost const arguments: seq<Component>

    ghost predicate Valid()
      reads this
    {
      components == Stored(arguments)
    }

    /** `ComponentEvent(*comps)`: store every argument under its class, in order. */
    constructor (comps: seq<Component>)
      ensures Valid() && arguments == comps
    {
      arguments := comps;
      components := map[];
      new;
      for i := 0 to |comps|
        invariant components == Stored(comps[..i])
      {
        assert comps[..i + 1][..i] == comps[..i];
        components := components[comps[i].Kind() := comps[i]];
      }
      assert comps[..|comps|] == comps;
    }

    /** `has_component`: true exactly when some constructor argument has class `k`. */
    function HasComponent(k: ComponentKind): (b: bool)
      requires Valid()
      reads this
      ensures b <==> HasKind(arguments, k)
    {
      StoredKeys(arguments, k);
      k in components
    }

    /** `safe_component`: the last constructor argument of class `k`, or nothing
        when there is none. */
    function SafeComponent(k: ComponentKind): (r: Option<Component>)
      requires Valid()
      reads this
      ensures r.None? <==> !HasKind(arguments, k)
      ensures r.Some? ==> r.value.Kind() == k && LastOfKind(arguments, k, r.value)
    {
      StoredKeys(arguments, k);
      if k in components then StoredLast(arguments, k); Some(components[k]) else None
    }

    /** `component`: the same component as `safe_component`, or
        `NoSuchComponentError` exactly when that gives nothing. */
    function ComponentOf(k: ComponentKind): (r: Result<Component, NoSuchComponentError>)
      requires Valid()
      reads this
      ensures r.Failure? <==> !HasComponent(k)
      ensures r.Failure? ==> r.error == NoSuchComponentError(k)
      ensures r.Success? ==> SafeComponent(k) == Some(r.value)
    {
      match SafeComponent(k)
      case None => Failure(NoSuchComponentError(k))
      case Some(c) => Success(c)
    }
  }

  /** Two arguments of the same class: the later one is the one stored. */
  lemma LaterComponentWins(first: Component, second: Component)
    requires first.Kind() == second.Kind()
    ensures Stored([first, second]) == map[second.Kind() := second]
  {
    assert [first, second][..1] == [first];
    assert [first][..0] == [];
    assert Stored([first]) == map[first.Kind() := first];
  }

  /** Arguments of different classes are all kept. */
  lemma DistinctComponentsKept(first: Component, second: Component)
    requires first.Kind() != second.Kind()
    ensures Stored([first, second]) == map[first.Kind() := first, second.Kind() := second]
  {
    assert [first, second][..1] == [first];
    assert [first][..0] == [];
    assert Stored([first]) == map[first.Kind() := first];
  }
}
