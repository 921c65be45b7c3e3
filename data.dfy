/** The content picker of idlez/data/data.py: elements, encounters and event
    messages loaded as game content, and `DataPicker`, which picks from them
    and fills the picked templates.

    `random.choice(xs)` becomes `Choose(xs, draw)`, where `draw` is a number the
    caller supplies (the picker's random source); an empty list fails as
    `random.choice` raises IndexError. `pick_single_encounter` draws several
    times; its draws are the oracle `draws`, consulted at 0 for the encounter
    and at i + 1 for the i-th element slot. */
module Data {
  import opened Wrappers
  import opened Templates
  import Decimal

  datatype EventType = NewPlayer | LevelUp | LoudNoise
  {
    /** The enum's value, the key into the event messages. */
    function Value(): string {
      match this
      case NewPlayer => "new_player"
      case LevelUp => "level_up"
      case LoudNoise => "loud_noise"
    }
  }

  datatype EncounterType = SingleGainRandom
  datatype EffectType = GainExpElementSum

  /** A picked content element; `worth` is a Python float. */
  datatype Element =
    | Loot(aLoot: string, category: string, worth: real)
    | Crate(inCrate: string, worth: real)
    | BodyCrate(onBody: string, worth: real)
  {
    /** The template parameters the element contributes. */
    function FormatMap(): (m: map<string, Param>)
      ensures Loot? ==> m == map["a_loot" := Text(aLoot), "loot_category" := Text(category)]
      ensures Crate? ==> m == map["in_crate" := Text(inCrate)]
      ensures BodyCrate? ==> m == map["on_body" := Text(onBody)]
    {
      match this
      case Loot(a, c, _) => map["a_loot" := Text(a), "loot_category" := Text(c)]
      case Crate(c, _) => map["in_crate" := Text(c)]
      case BodyCrate(b, _) => map["on_body" := Text(b)]
    }
  }

  type LootItem = e: Element | e.Loot? witness Loot("", "", 0.0)
  type CrateItem = e: Element | e.Crate? witness Crate("", 0.0)
  type BodyCrateItem = e: Element | e.BodyCrate? witness BodyCrate("", 0.0)

  datatype Elements = Elements(loot: seq<LootItem>, crate: seq<CrateItem>, bodyCrate: seq<BodyCrateItem>)

  datatype SingleGainRandomEncounter = SingleGainRandomEncounter(effect: EffectType, elements: seq<string>, message: string)
  {
    function Type(): EncounterType { SingleGainRandom }
  }

  datatype PlayerFight = PlayerFight(successMessage: string, failMessage: string)

  datatype Encounters = Encounters(singleGainRandom: seq<SingleGainRandomEncounter>, playerFight: seq<PlayerFight>)

  /** Event messages by `EventType.value`. */
  type EventMessages = map<string, seq<string>>

  datatype Data = Data(eventMessages: EventMessages, elements: Elements, encounters: Encounters)

  datatype PickedSingleEncounter = PickedSingleEncounter(message: string, worth: real)

  /** What the picker raises: IndexError from an empty choice, NotImplementedError
      for an unknown slot, KeyError for an event type without messages,
      ZeroDivisionError for an encounter without elements, and the errors of
      `format_map`. */
  datatype PickError =
    | EmptyChoice
    | NotImplemented(slot: string)
    | MissingMessages(key: string)
    | ZeroDivision
    | Template(error: FormatError)

  /** `random.choice(xs)` with the random source's draw. */
  function Choose<T>(xs: seq<T>, draw: nat): (r: Result<T, PickError>)
    ensures r.Failure? <==> |xs| == 0
    ensures r.Failure? ==> r.error == EmptyChoice
    ensures r.Success? ==> r.value in xs
  {
    if |xs| == 0 then Failure(EmptyChoice) else Success(xs[draw % |xs|])
  }

  /** Every member of a list can be chosen. */
  lemma ChooseReaches<T>(xs: seq<T>, i: nat)
    requires i < |xs|
    ensures Choose(xs, i) == Success(xs[i])
  {
    var n := |xs|;
    assert i == 0 * n + i;
    assert i % n == i;
  }

  /** The list a slot name selects; only three names are known. */
  function Slot(elements: Elements, name: string): (r: Option<seq<Element>>)
    ensures r.Some? <==> name == "loot" || name == "crate" || name == "body_crate"
  {
    if name == "loot" then Some(elements.loot)
    else if name == "crate" then Some(elements.crate)
    else if name == "body_crate" then Some(elements.bodyCrate)
    else None
  }

  /** `DataPicker.pick_element`. */
  function PickElement(elements: Elements, name: string, draw: nat): (r: Result<Element, PickError>)
    ensures r.Success? <==> Slot(elements, name).Some? && |Slot(elements, name).value| > 0
    ensures r == Failure(NotImplemented(name)) <==> Slot(elements, name).None?
    ensures r == Failure(EmptyChoice) <==> Slot(elements, name) == Some([])
    ensures r.Success? ==> Slot(elements, name).Some? && r.value in Slot(elements, name).value
    ensures name == "loot" && r.Success? ==> r.value.Loot? && r.value in elements.loot
    ensures name == "crate" && r.Success? ==> r.value.Crate? && r.value in elements.crate
    ensures name == "body_crate" && r.Success? ==> r.value.BodyCrate? && r.value in elements.bodyCrate
  {
    match Slot(elements, name)
    case None => Failure(NotImplemented(name))
    case Some(xs) => Choose(xs, draw)
  }

  /** The `chosen_elements` comprehension: one pick per slot name, in order, the
      i-th with draw `draws(i + 1)`; a repeated name keeps its last pick. The
      first failing pick is the error. */
  function Chosen(elements: Elements, slots: seq<string>, draws: nat -> nat): (r: Result<map<string, Element>, PickError>)
    ensures r.Failure? ==> r.error == EmptyChoice || (r.error.NotImplemented? && r.error.slot in slots)
    ensures r.Success? ==> |r.value| <= |slots|
    decreases |slots|
  {
    if slots == [] then Success(map[])
    else
      var last := |slots| - 1;
      match Chosen(elements, slots[..last], draws)
      case Failure(e) => Failure(e)
      case Success(m) =>
        match PickElement(elements, slots[last], draws(last + 1))
        case Failure(e) => Failure(e)
        case Success(el) => Success(m[slots[last] := el])
  }

  /** A slot name from which a pick succeeds: a known name with a nonempty list. */
  predicate Pickable(elements: Elements, name: string) {
    Slot(elements, name).Some? && |Slot(elements, name).value| > 0
  }

  /** One more slot name: the picks so far, then the pick for the new name. */
  lemma ChosenSnoc(elements: Elements, front: seq<string>, name: string, draws: nat -> nat)
    ensures var pick := PickElement(elements, name, draws(|front| + 1));
      match Chosen(elements, front, draws)
      case Failure(e) => Chosen(elements, front + [name], draws) == Failure(e)
      case Success(m) =>
        && (Chosen(elements, front + [name], draws).Success? <==> pick.Success?)
        && (pick.Success? ==> Chosen(elements, front + [name], draws).value == m[name := pick.value])
        && (pick.Failure? ==> Chosen(elements, front + [name], draws) == Failure(pick.error))
  {
    assert (front + [name])[..|front|] == front;
  }

  /** The picks succeed exactly when every slot name is pickable; then there is
      one pick per distinct slot name, taken from that slot's list. */
  lemma {:induction false} ChosenSpec(elements: Elements, slots: seq<string>, draws: nat -> nat)
    ensures Chosen(elements, slots, draws).Success? <==> forall s :: s in slots ==> Pickable(elements, s)
    ensures Chosen(elements, slots, draws).Success? ==>
      var m := Chosen(elements, slots, draws).value;
      && (forall s :: s in m <==> s in slots)
      && forall s :: s in m ==> Pickable(elements, s) && m[s] in Slot(elements, s).value
    decreases |slots|
  {
    if slots != [] {
      var front, name := slots[..|slots| - 1], slots[|slots| - 1];
      assert slots == front + [name];
      ChosenSpec(elements, front, draws);
      ChosenSnoc(elements, front, name, draws);
      assert forall s :: s in slots <==> s in front || s == name;
      if Chosen(elements, front, draws).Failure? {
        assert Chosen(elements, slots, draws).Failure?;
        var bad :| bad in front && !Pickable(elements, bad);
        assert bad in slots;
      } else {
        var m := Chosen(elements, front, draws).value;
        var pick := PickElement(elements, name, draws(|front| + 1));
        assert pick.Success? <==> Pickable(elements, name);
        if pick.Success? {
          var m' := m[name := pick.value];
          assert Chosen(elements, slots, draws).value == m';
          forall s | s in m'
            ensures Pickable(elements, s) && m'[s] in Slot(elements, s).value
          {
            if s != name {
              assert m'[s] == m[s];
            }
          }
        } else {
          assert name in slots;
        }
      }
    }
  }

  /** `slots[i]` is the first slot name that is not pickable. */
  predicate FirstUnpickable(elements: Elements, slots: seq<string>, i: int) {
    0 <= i < |slots| && !Pickable(elements, slots[i]) && forall j :: 0 <= j < i ==> Pickable(elements, slots[j])
  }

  /** What picking from a slot name that is not pickable raises. */
  function SlotError(elements: Elements, name: string): PickError {
    if Slot(elements, name).None? then NotImplemented(name) else EmptyChoice
  }

  /** The error of failing picks comes from the first slot name that is not
      pickable: NotImplementedError for an unknown name, IndexError for a known
      name with an empty list. */
  lemma {:induction false} ChosenError(elements: Elements, slots: seq<string>, draws: nat -> nat)
    ensures Chosen(elements, slots, draws).Failure? ==>
      exists i :: FirstUnpickable(elements, slots, i)
        && Chosen(elements, slots, draws).error == SlotError(elements, slots[i])
    decreases |slots|
  {
    if slots != [] {
      var front, name := slots[..|slots| - 1], slots[|slots| - 1];
      assert slots == front + [name];
      ChosenSnoc(elements, front, name, draws);
      if Chosen(elements, front, draws).Failure? {
        ChosenError(elements, front, draws);
        var i :| FirstUnpickable(elements, front, i)
          && Chosen(elements, front, draws).error == SlotError(elements, front[i]);
        assert forall j :: 0 <= j <= i ==> slots[j] == front[j];
        assert FirstUnpickable(elements, slots, i);
      } else if Chosen(elements, slots, draws).Failure? {
        ChosenSpec(elements, front, draws);
        var last := |slots| - 1;
        assert forall j :: 0 <= j < last ==> slots[j] in front;
        assert FirstUnpickable(elements, slots, last);
      }
    }
  }

  /** A slot name holds an element of its own kind. */
  predicate KindMatches(name: string, e: Element) {
    (name == "loot" ==> e.Loot?) && (name == "crate" ==> e.Crate?) && (name == "body_crate" ==> e.BodyCrate?)
  }

  lemma ChosenKinds(elements: Elements, slots: seq<string>, draws: nat -> nat)
    requires Chosen(elements, slots, draws).Success?
    ensures forall s :: s in Chosen(elements, slots, draws).value ==> KindMatches(s, Chosen(elements, slots, draws).value[s])
  {
    ChosenSpec(elements, slots, draws);
    var m := Chosen(elements, slots, draws).value;
    forall s | s in m
      ensures KindMatches(s, m[s])
    {
      assert m[s] in Slot(elements, s).value;
    }
  }

  function FormatMapAt(chosen: map<string, Element>, name: string): map<string, Param> {
    if name in chosen then chosen[name].FormatMap() else map[]
  }

  /** The merged format map of `pick_single_encounter`: `player_name` and
      `time_gain` mapped to their own placeholders, then the parameters of every
      chosen element. `ChainMap` gives the first map holding a key precedence;
      the three element kinds have disjoint keys (`FormatMapsDisjoint`), so the
      merge order does not matter. */
  function Combined(chosen: map<string, Element>): (r: map<string, Param>)
    ensures forall k :: k in r <==>
      || k == "player_name" || k == "time_gain"
      || exists s :: s in chosen && s in {"loot", "crate", "body_crate"} && k in chosen[s].FormatMap()
    ensures r["player_name"] == Text("{player_name}") && r["time_gain"] == Text("{time_gain}")
    ensures (forall s :: s in chosen ==> KindMatches(s, chosen[s])) ==>
      forall s, k :: s in chosen && s in {"loot", "crate", "body_crate"} && k in chosen[s].FormatMap() ==>
        k in r && r[k] == chosen[s].FormatMap()[k]
  {
    var r := map["player_name" := Text("{player_name}"), "time_gain" := Text("{time_gain}")]
      + FormatMapAt(chosen, "loot") + FormatMapAt(chosen, "crate") + FormatMapAt(chosen, "body_crate");
    MergedKeys(chosen, r);
    MergedValues(chosen, r);
    r
  }

  /** With every slot holding its own kind, each element parameter keeps its value. */
  lemma MergedValues(chosen: map<string, Element>, r: map<string, Param>)
    requires r == map["player_name" := Text("{player_name}"), "time_gain" := Text("{time_gain}")]
      + FormatMapAt(chosen, "loot") + FormatMapAt(chosen, "crate") + FormatMapAt(chosen, "body_crate")
    ensures (forall s :: s in chosen ==> KindMatches(s, chosen[s])) ==>
      forall s, k :: s in chosen && s in {"loot", "crate", "body_crate"} && k in chosen[s].FormatMap() ==>
        k in r && r[k] == chosen[s].FormatMap()[k]
  {
    if forall s :: s in chosen ==> KindMatches(s, chosen[s]) {
      forall s, k | s in chosen && s in {"loot", "crate", "body_crate"} && k in chosen[s].FormatMap()
        ensures k in r && r[k] == chosen[s].FormatMap()[k]
      {
        if s == "loot" {
          if "crate" in chosen { FormatMapsDisjoint(chosen["loot"], chosen["crate"]); }
          if "body_crate" in chosen { FormatMapsDisjoint(chosen["loot"], chosen["body_crate"]); }
        } else if s == "crate" {
          if "body_crate" in chosen { FormatMapsDisjoint(chosen["crate"], chosen["body_crate"]); }
        }
      }
    }
  }

  /** The keys and placeholders of the merged map, from its parts. */
  lemma MergedKeys(chosen: map<string, Element>, r: map<string, Param>)
    requires r == map["player_name" := Text("{player_name}"), "time_gain" := Text("{time_gain}")]
      + FormatMapAt(chosen, "loot") + FormatMapAt(chosen, "crate") + FormatMapAt(chosen, "body_crate")
    ensures forall k :: k in r <==>
      || k == "player_name" || k == "time_gain"
      || exists s :: s in chosen && s in {"loot", "crate", "body_crate"} && k in chosen[s].FormatMap()
    ensures r["player_name"] == Text("{player_name}") && r["time_gain"] == Text("{time_gain}")
  {
    forall s | s in chosen
      ensures "player_name" !in chosen[s].FormatMap() && "time_gain" !in chosen[s].FormatMap()
    {
      FormatMapsDisjoint(chosen[s], chosen[s]);
    }
    forall k
      ensures k in r <==>
        || k == "player_name" || k == "time_gain"
        || exists s :: s in chosen && s in {"loot", "crate", "body_crate"} && k in chosen[s].FormatMap()
    {
      if k in r && k != "player_name" && k != "time_gain" {
        if k in FormatMapAt(chosen, "loot") {
          assert "loot" in chosen && k in chosen["loot"].FormatMap();
        } else if k in FormatMapAt(chosen, "crate") {
          assert "crate" in chosen && k in chosen["crate"].FormatMap();
        } else {
          assert "body_crate" in chosen && k in chosen["body_crate"].FormatMap();
        }
      }
    }
  }

  /** Elements of different kinds contribute different parameter names, and
      none of them is `player_name` or `time_gain`. */
  lemma FormatMapsDisjoint(e1: Element, e2: Element)
    ensures e1.Loot? != e2.Loot? || e1.Crate? != e2.Crate? ==> e1.FormatMap().Keys !! e2.FormatMap().Keys
    ensures "player_name" !in e1.FormatMap() && "time_gain" !in e1.FormatMap()
  {
  }

  /** The placeholders `{player_name}` and `{time_gain}` survive the merged map,
      whatever was chosen, so a later fill can replace them. */
  lemma CombinedKeepsPlaceholders(chosen: map<string, Element>, rest: string)
    requires forall s :: s in chosen ==> KindMatches(s, chosen[s])
    ensures FormatMap("{player_name}" + rest, Combined(chosen)) == Prefix("{player_name}", FormatMap(rest, Combined(chosen)))
    ensures FormatMap("{time_gain}" + rest, Combined(chosen)) == Prefix("{time_gain}", FormatMap(rest, Combined(chosen)))
  {
    var m := Combined(chosen);
    assert m["player_name"] == Text("{player_name}") && m["time_gain"] == Text("{time_gain}") by {
      if "loot" in chosen { FormatMapsDisjoint(chosen["loot"], chosen["loot"]); }
      if "crate" in chosen { FormatMapsDisjoint(chosen["crate"], chosen["crate"]); }
      if "body_crate" in chosen { FormatMapsDisjoint(chosen["body_crate"], chosen["body_crate"]); }
    }
    PlaceholderNames();
    FormatMapField("player_name", rest, m);
    FormatMapField("time_gain", rest, m);
  }

  lemma PlaceholderNames()
    ensures "{player_name}" == "{" + "player_name" + "}"
    ensures "{time_gain}" == "{" + "time_gain" + "}"
    ensures NoneOf("player_name", FieldStops) && !Decimal.AllDigits("player_name")
    ensures NoneOf("time_gain", FieldStops) && !Decimal.AllDigits("time_gain")
  {
    assert !Decimal.IsDigit("player_name"[0]) && !Decimal.IsDigit("time_gain"[0]);
  }

  /** The slot names without repeats, in order of first appearance: the keys of
      `chosen_elements` in dict order. */
  function Distinct(xs: seq<string>): (d: seq<string>)
    ensures forall x :: x in d <==> x in xs
    ensures forall i, j :: 0 <= i < j < |d| ==> d[i] != d[j]
  {
    if xs == [] then []
    else
      var d := Distinct(xs[..|xs| - 1]);
      assert forall x :: x in xs <==> x in xs[..|xs| - 1] || x == xs[|xs| - 1] by {
        assert xs == xs[..|xs| - 1] + [xs[|xs| - 1]];
      }
      if xs[|xs| - 1] in d then d else d + [xs[|xs| - 1]]
  }

  /** There are as many distinct slot names as names in the set of slots. */
  lemma {:induction false} DistinctCount(d: seq<string>)
    requires forall i, j :: 0 <= i < j < |d| ==> d[i] != d[j]
    ensures |set x | x in d| == |d|
  {
    if d != [] {
      var init := d[..|d| - 1];
      DistinctCount(init);
      assert (set x | x in d) == (set x | x in init) + {d[|d| - 1]} by {
        assert d == init + [d[|d| - 1]];
      }
      assert d[|d| - 1] !in init;
    }
  }

  function Sum(xs: seq<real>): real {
    if xs == [] then 0.0 else Sum(xs[..|xs| - 1]) + xs[|xs| - 1]
  }

  /** `sum(xs) / len(xs)`. */
  function Mean(xs: seq<real>): real
    requires |xs| > 0
  {
    Sum(xs) / (|xs| as real)
  }

  lemma {:induction false} SumBetween(xs: seq<real>, lo: real, hi: real)
    requires forall i :: 0 <= i < |xs| ==> lo <= xs[i] <= hi
    ensures lo * (|xs| as real) <= Sum(xs) <= hi * (|xs| as real)
  {
    if xs != [] {
      SumBetween(xs[..|xs| - 1], lo, hi);
    }
  }

  /** A mean lies between any lower and upper bound of its values. */
  lemma MeanBetween(xs: seq<real>, lo: real, hi: real)
    requires |xs| > 0
    requires forall i :: 0 <= i < |xs| ==> lo <= xs[i] <= hi
    ensures lo <= Mean(xs) <= hi
  {
    SumBetween(xs, lo, hi);
    var n := |xs| as real;
    assert lo * n <= Sum(xs) <= hi * n;
    assert Mean(xs) * n == Sum(xs);
  }

  /** The mean of equal values is that value. */
  lemma MeanOfEqual(xs: seq<real>, w: real)
    requires |xs| > 0
    requires forall i :: 0 <= i < |xs| ==> xs[i] == w
    ensures Mean(xs) == w
  {
    MeanBetween(xs, w, w);
  }

  /** The worths of the chosen elements, one per distinct slot name. */
  function Worths(chosen: map<string, Element>, names: seq<string>): (ws: seq<real>)
    requires forall s :: s in names ==> s in chosen
    ensures |ws| == |names|
    ensures forall i :: 0 <= i < |names| ==> ws[i] == chosen[names[i]].worth
  {
    seq(|names|, i requires 0 <= i < |names| => chosen[names[i]].worth)
  }

  /** `DataPicker.pick_single_encounter`: choose an encounter, pick an element per
      slot, merge their parameters, average their worth and fill the encounter's
      message. */
  function PickSingleEncounter(data: Data, draws: nat -> nat): (r: Result<PickedSingleEncounter, PickError>)
    ensures r.Failure? ==> !r.error.MissingMessages?
    ensures r.Success? ==> |data.encounters.singleGainRandom| > 0
  {
    match Choose(data.encounters.singleGainRandom, draws(0))
    case Failure(e) => Failure(e)
    case Success(enc) =>
      match Chosen(data.elements, enc.elements, draws)
      case Failure(e) => Failure(e)
      case Success(chosen) =>
        var names := Distinct(enc.elements);
        if |names| == 0 then Failure(ZeroDivision)
        else
          ChosenSpec(data.elements, enc.elements, draws);
          match Evaluated(enc.message, Combined(chosen))
          case Failure(e) => Failure(Template(e))
          case Success(message) => Success(PickedSingleEncounter(message, Mean(Worths(chosen, names))))
  }

  /** One pick per distinct slot name. */
  lemma ChosenCount(elements: Elements, slots: seq<string>, draws: nat -> nat)
    requires Chosen(elements, slots, draws).Success?
    ensures |Chosen(elements, slots, draws).value| == |Distinct(slots)|
  {
    ChosenSpec(elements, slots, draws);
    var m := Chosen(elements, slots, draws).value;
    var d := Distinct(slots);
    DistinctCount(d);
    assert m.Keys == set s | s in d;
  }

  /** Every element of the content is worth between `lo` and `hi`. */
  predicate WorthsWithin(elements: Elements, lo: real, hi: real) {
    && (forall i :: 0 <= i < |elements.loot| ==> lo <= elements.loot[i].worth <= hi)
    && (forall i :: 0 <= i < |elements.crate| ==> lo <= elements.crate[i].worth <= hi)
    && (forall i :: 0 <= i < |elements.bodyCrate| ==> lo <= elements.bodyCrate[i].worth <= hi)
  }

  /** Worths drawn from content whose worths are bounded stay in the bounds. */
  lemma WorthsBetween(elements: Elements, chosen: map<string, Element>, names: seq<string>, lo: real, hi: real)
    requires forall s :: s in chosen ==> Pickable(elements, s) && chosen[s] in Slot(elements, s).value
    requires forall s :: s in names ==> s in chosen
    requires WorthsWithin(elements, lo, hi)
    ensures forall i :: 0 <= i < |names| ==> lo <= Worths(chosen, names)[i] <= hi
  {
    forall i | 0 <= i < |names|
      ensures lo <= Worths(chosen, names)[i] <= hi
    {
      var s := names[i];
      var e := chosen[s];
      assert e in Slot(elements, s).value;
      if s == "loot" {
        assert e in elements.loot;
      } else if s == "crate" {
        assert e in elements.crate;
      } else {
        assert e in elements.bodyCrate;
      }
      assert Worths(chosen, names)[i] == e.worth;
    }
  }

  /** The encounter `pick_single_encounter` chooses with the given draws. */
  function PickedEncounter(data: Data, draws: nat -> nat): (enc: SingleGainRandomEncounter)
    requires |data.encounters.singleGainRandom| > 0
    ensures enc in data.encounters.singleGainRandom
  {
    var encs := data.encounters.singleGainRandom;
    encs[draws(0) % |encs|]
  }

  /** The steps a successful pick went through: a chosen encounter, one picked
      element per slot, a message filled from their merged parameters and the
      mean of their worths. */
  lemma PickSingleEncounterSteps(data: Data, draws: nat -> nat)
    requires PickSingleEncounter(data, draws).Success?
    ensures |data.encounters.singleGainRandom| > 0
    ensures Chosen(data.elements, PickedEncounter(data, draws).elements, draws).Success?
    ensures |Distinct(PickedEncounter(data, draws).elements)| > 0
    ensures var enc := PickedEncounter(data, draws);
      var chosen := Chosen(data.elements, enc.elements, draws).value;
      && (forall s :: s in Distinct(enc.elements) ==> s in chosen)
      && Evaluated(enc.message, Combined(chosen)) == Success(PickSingleEncounter(data, draws).value.message)
      && PickSingleEncounter(data, draws).value.worth == Mean(Worths(chosen, Distinct(enc.elements)))
  {
    var encs := data.encounters.singleGainRandom;
    var enc := encs[draws(0) % |encs|];
    ChosenSpec(data.elements, enc.elements, draws);
  }

  /** Only an empty list has no distinct names. */
  lemma DistinctEmpty(xs: seq<string>)
    ensures |Distinct(xs)| == 0 <==> |xs| == 0
  {
    if |xs| > 0 {
      assert xs[0] in xs;
      assert xs[0] in Distinct(xs);
    }
  }

  /** Every outcome of `pick_single_encounter`: IndexError without encounters,
      the error of the first slot that cannot be picked, ZeroDivisionError for an
      encounter without slots, the template's error, and otherwise success. It
      succeeds exactly when there is an encounter, the chosen one has slots that
      are all pickable, and its message can be filled. */
  lemma PickSingleEncounterOutcome(data: Data, draws: nat -> nat)
    ensures var encs := data.encounters.singleGainRandom;
      var r := PickSingleEncounter(data, draws);
      && (|encs| == 0 ==> r == Failure(EmptyChoice))
      && (|encs| > 0 ==>
            var enc := PickedEncounter(data, draws);
            var picks := Chosen(data.elements, enc.elements, draws);
            && (picks.Failure? ==> r == Failure(picks.error))
            && (picks.Success? && |enc.elements| == 0 ==> r == Failure(ZeroDivision))
            && (picks.Success? && |enc.elements| > 0 ==>
                  var filled := Evaluated(enc.message, Combined(picks.value));
                  && (filled.Failure? ==> r == Failure(Template(filled.error)))
                  && (filled.Success? ==> r.Success? && r.value.message == filled.value)))
    ensures PickSingleEncounter(data, draws).Success? <==>
      && |data.encounters.singleGainRandom| > 0
      && |PickedEncounter(data, draws).elements| > 0
      && (forall s :: s in PickedEncounter(data, draws).elements ==> Pickable(data.elements, s))
      && Chosen(data.elements, PickedEncounter(data, draws).elements, draws).Success?
      && Evaluated(PickedEncounter(data, draws).message,
                   Combined(Chosen(data.elements, PickedEncounter(data, draws).elements, draws).value)).Success?
  {
    if |data.encounters.singleGainRandom| > 0 {
      var enc := PickedEncounter(data, draws);
      ChosenSpec(data.elements, enc.elements, draws);
      DistinctEmpty(enc.elements);
    }
  }

  /** What a successful `pick_single_encounter` promises beyond the picks
      themselves (which `ChosenSpec` describes): one element per distinct slot
      name, the message is the encounter's template filled from the merged
      parameters, and the worth is the mean of the picked worths, so it lies
      within any bounds all of the content's worths lie in. */
  lemma PickSingleEncounterSpec(data: Data, draws: nat -> nat, lo: real, hi: real)
    requires PickSingleEncounter(data, draws).Success?
    requires WorthsWithin(data.elements, lo, hi)
    ensures |data.encounters.singleGainRandom| > 0
    ensures Chosen(data.elements, PickedEncounter(data, draws).elements, draws).Success?
    ensures var enc := PickedEncounter(data, draws);
      var chosen := Chosen(data.elements, enc.elements, draws).value;
      var r := PickSingleEncounter(data, draws).value;
      && |chosen| == |Distinct(enc.elements)| > 0
      && Evaluated(enc.message, Combined(chosen)) == Success(r.message)
      && lo <= r.worth <= hi
  {
    PickSingleEncounterSteps(data, draws);
    var enc := PickedEncounter(data, draws);
    ChosenSpec(data.elements, enc.elements, draws);
    ChosenCount(data.elements, enc.elements, draws);
    var chosen := Chosen(data.elements, enc.elements, draws).value;
    var names := Distinct(enc.elements);
    WorthsBetween(data.elements, chosen, names, lo, hi);
    MeanBetween(Worths(chosen, names), lo, hi);
  }

  /** `DataPicker.fill_event_message`: choose one of the event type's messages
      and fill it. */
  function FillEventMessage(data: Data, t: EventType, params: map<string, Param>, draw: nat): (r: Result<string, PickError>)
    ensures r == Failure(MissingMessages(t.Value())) <==> t.Value() !in data.eventMessages
    ensures t.Value() in data.eventMessages ==>
      (r == Failure(EmptyChoice) <==> |data.eventMessages[t.Value()]| == 0)
    ensures t.Value() in data.eventMessages && |data.eventMessages[t.Value()]| > 0 ==>
      var msgs := data.eventMessages[t.Value()];
      var filled := Evaluated(msgs[draw % |msgs|], params);
      && (r.Success? <==> filled.Success?)
      && (r.Success? ==> filled == Success(r.value))
      && (filled.Failure? ==> r == Failure(Template(filled.error)))
    ensures r.Success? ==>
      exists i :: 0 <= i < |data.eventMessages[t.Value()]|
        && Evaluated(data.eventMessages[t.Value()][i], params) == Success(r.value)
  {
    var key := t.Value();
    if key !in data.eventMessages then Failure(MissingMessages(key))
    else
      match Choose(data.eventMessages[key], draw)
      case Failure(e) => Failure(e)
      case Success(template) =>
        match Evaluated(template, params)
        case Failure(e) => Failure(Template(e))
        case Success(message) => Success(message)
  }

  /** The message of a fight for its outcome. */
  function FightMessage(fight: PlayerFight, playerWins: bool): string {
    if playerWins then fight.successMessage else fight.failMessage
  }

  /** `DataPicker.fill_player_fight_message`: choose a fight and fill its
      success message when the player wins, its fail message otherwise. */
  function FillPlayerFightMessage(data: Data, playerWins: bool, params: map<string, Param>, draw: nat): (r: Result<string, PickError>)
    ensures r == Failure(EmptyChoice) <==> |data.encounters.playerFight| == 0
    ensures |data.encounters.playerFight| > 0 ==>
      var fights := data.encounters.playerFight;
      var filled := Evaluated(FightMessage(fights[draw % |fights|], playerWins), params);
      && (r.Success? <==> filled.Success?)
      && (r.Success? ==> filled == Success(r.value))
      && (filled.Failure? ==> r == Failure(Template(filled.error)))
    ensures r.Success? ==>
      exists i :: 0 <= i < |data.encounters.playerFight|
        && Evaluated(FightMessage(data.encounters.playerFight[i], playerWins), params) == Success(r.value)
  {
    match Choose(data.encounters.playerFight, draw)
    case Failure(e) => Failure(e)
    case Success(fight) =>
      match Evaluated(FightMessage(fight, playerWins), params)
      case Failure(e) => Failure(Template(e))
      case Success(message) => Success(message)
  }

  /** With the same draw, winning and losing fill the two messages of the same
      fight. */
  lemma FightOutcomesShareFight(data: Data, params: map<string, Param>, draw: nat)
    requires |data.encounters.playerFight| > 0
    ensures var fight := data.encounters.playerFight[draw % |data.encounters.playerFight|];
      && FillPlayerFightMessage(data, true, params, draw).Success? == Evaluated(fight.successMessage, params).Success?
      && FillPlayerFightMessage(data, false, params, draw).Success? == Evaluated(fight.failMessage, params).Success?
      && (FillPlayerFightMessage(data, true, params, draw).Success? ==>
            Evaluated(fight.successMessage, params) == Success(FillPlayerFightMessage(data, true, params, draw).value))
      && (FillPlayerFightMessage(data, false, params, draw).Success? ==>
            Evaluated(fight.failMessage, params) == Success(FillPlayerFightMessage(data, false, params, draw).value))
  {
  }

  /** The content of tests/test_data.py: one level-up message and nothing else. */
  function LevelUpOnlyData(template: string): Data {
    Data(map[EventType.LevelUp.Value() := [template]], Elements([], [], []), Encounters([], []))
  }

  /** With a single message for an event type, every draw fills that message. */
  lemma FillSingleMessage(data: Data, t: EventType, template: string, params: map<string, Param>, draw: nat)
    requires t.Value() in data.eventMessages && data.eventMessages[t.Value()] == [template]
    ensures Evaluated(template, params).Success? ==> FillEventMessage(data, t, params, draw) == Success(Evaluated(template, params).value)
  {
  }

  /** tests/test_data.py: filling the level-up message of that content. */
  lemma FillEventMessageExample(draw: nat)
    ensures FillEventMessage(LevelUpOnlyData(ExampleTemplate), LevelUp, map["player_name" := Text("player_name"), "new_level" := Number(24), "ttl" := Text("some time")], draw)
         == Success("Player_name" + (" Text " + ("24" + (". time: " + "SOME TIME"))))
  {
    EvaluatedLevelUpExample();
    FillSingleMessage(LevelUpOnlyData(ExampleTemplate), LevelUp, ExampleTemplate, map["player_name" := Text("player_name"), "new_level" := Number(24), "ttl" := Text("some time")], draw);
  }
}
