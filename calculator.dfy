/** The split calculator of `calculate_bill`: validating the dishes, sharing
    each dish's price among its eaters, the grand total and the result list. */
module SplitCalculator {
  import opened BillTypes

  // ---------------------------------------------------------------------
  // Reading the dishes
  // ---------------------------------------------------------------------

  /** A dish the loop can read without raising. */
  predicate WellFormed(d: RawDish) {
    d.name.Given? && d.price.Given?
  }

  /** The exception reading a malformed dish raises. The name is read first,
      then the price is read and converted, and only then is the name used as
      a key, so a missing price is reported before an unusable name. */
  function DishError(d: RawDish): (e: CalcError)
    requires !WellFormed(d)
    ensures e == MissingName <==> d.name.Absent?
    ensures e == MissingPrice <==> !d.name.Absent? && d.price.Absent?
    ensures e == BadPrice <==> !d.name.Absent? && d.price.Malformed?
    ensures e == BadName <==> d.name.Malformed? && d.price.Given?
  {
    if d.name.Absent? then MissingName
    else if d.price.Absent? then MissingPrice
    else if d.price.Malformed? then BadPrice
    else BadName
  }

  function ToDish(d: RawDish): Dish
    requires WellFormed(d)
  {
    Dish(d.name.value, d.price.value)
  }

  /** The dishes as the loop reads them, or the error of the first malformed
      one. */
  function Validate(raw: seq<RawDish>): (r: Result<seq<Dish>>)
    ensures r.Ok? <==> forall i :: 0 <= i < |raw| ==> WellFormed(raw[i])
    ensures r.Ok? ==> |r.value| == |raw| && forall i :: 0 <= i < |raw| ==> r.value[i] == ToDish(raw[i])
    ensures r.Err? ==> exists k :: 0 <= k < |raw| && !WellFormed(raw[k]) && r.error == DishError(raw[k]) &&
                                   forall j :: 0 <= j < k ==> WellFormed(raw[j])
  {
    if raw == [] then Ok([])
    else
      var last := raw[|raw| - 1];
      match Validate(raw[..|raw| - 1])
      case Err(e) => Err(e)
      case Ok(ds) => if WellFormed(last) then Ok(ds + [ToDish(last)]) else Err(DishError(last))
  }

  // ---------------------------------------------------------------------
  // Specification of the shares
  // ---------------------------------------------------------------------

  /** The eater list of a dish; a dish with no entry has no eaters. */
  function EatersOf(asg: Assignments, name: string): seq<string> {
    if name in asg then asg[name] else []
  }

  /** How many times `x` occurs in `s`. */
  function Occurrences(s: seq<string>, x: string): (n: nat)
    ensures n <= |s|
    ensures n == 0 <==> x !in s
  {
    if s == [] then 0
    else Occurrences(s[..|s| - 1], x) + (if s[|s| - 1] == x then 1 else 0)
  }

  /** What a pass over `eaters` credits to `p`: `amount` for every
      occurrence of `p`. */
  function Credit(eaters: seq<string>, p: string, amount: real): real {
    if eaters == [] then 0.0
    else Credit(eaters[..|eaters| - 1], p, amount) + (if eaters[|eaters| - 1] == p then amount else 0.0)
  }

  /** What dish `d` adds to person `p`: one equal share, the price divided by
      the length of the eater list, per occurrence of `p` in that list. */
  function DishShare(d: Dish, asg: Assignments, p: string): real {
    var eaters := EatersOf(asg, d.name);
    if |eaters| == 0 then 0.0
    else Credit(eaters, p, d.price / (|eaters| as real))
  }

  /** The unrounded amount person `p` owes for all of `dishes`. */
  function Share(dishes: seq<Dish>, asg: Assignments, p: string): real {
    if dishes == [] then 0.0
    else Share(dishes[..|dishes| - 1], asg, p) + DishShare(dishes[|dishes| - 1], asg, p)
  }

  /** The sum of all dish prices. */
  function GrandTotal(dishes: seq<Dish>): real {
    if dishes == [] then 0.0
    else GrandTotal(dishes[..|dishes| - 1]) + dishes[|dishes| - 1].price
  }

  /** The sum of the prices of dishes that have at least one eater. */
  function AssignedTotal(dishes: seq<Dish>, asg: Assignments): real {
    if dishes == [] then 0.0
    else
      var d := dishes[|dishes| - 1];
      AssignedTotal(dishes[..|dishes| - 1], asg) + (if |EatersOf(asg, d.name)| > 0 then d.price else 0.0)
  }

  /** The sum of the prices of dishes that have no eater. */
  function UnassignedTotal(dishes: seq<Dish>, asg: Assignments): real {
    if dishes == [] then 0.0
    else
      var d := dishes[|dishes| - 1];
      UnassignedTotal(dishes[..|dishes| - 1], asg) + (if |EatersOf(asg, d.name)| == 0 then d.price else 0.0)
  }

  // ---------------------------------------------------------------------
  // The people and the result list
  // ---------------------------------------------------------------------

  predicate Distinct(s: seq<string>) {
    forall i, j :: 0 <= i < j < |s| ==> s[i] != s[j]
  }

  /** The position of the first occurrence of `x` in `s`. */
  function FirstIndex(s: seq<string>, x: string): (k: nat)
    requires x in s
    ensures k < |s| && s[k] == x && x !in s[..k]
  {
    if x in s[..|s| - 1] then FirstIndex(s[..|s| - 1], x) else |s| - 1
  }

  /** The keys of the dictionary built from `people`: each name once, in the
      order of its first appearance. */
  function Dedup(people: seq<string>): (keys: seq<string>)
    ensures forall x :: x in keys <==> x in people
    ensures Distinct(keys)
    ensures forall i, j :: 0 <= i < j < |keys| ==> FirstIndex(people, keys[i]) < FirstIndex(people, keys[j])
  {
    if people == [] then []
    else
      var init := people[..|people| - 1];
      var keys := Dedup(init);
      var x := people[|people| - 1];
      assert forall y :: y in init ==> FirstIndex(people, y) == FirstIndex(init, y) by {
        forall y | y in init ensures FirstIndex(people, y) == FirstIndex(init, y) {
          assert people[..|people| - 1] == init;
        }
      }
      if x in keys then keys
      else
        assert FirstIndex(people, x) == |people| - 1;
        keys + [x]
  }

  /** The result list: one entry per key, in key order, with the rounded
      total of that key. */
  function Results(keys: seq<string>, totals: map<string, real>, round2: real -> real): seq<PersonTotal>
    requires forall k :: k in keys ==> k in totals
  {
    seq(|keys|, i requires 0 <= i < |keys| => PersonTotal(keys[i], round2(totals[keys[i]])))
  }

  /** The running totals after the loop: every named person, with the
      unrounded amount they owe. */
  function Totals(dishes: seq<Dish>, people: seq<string>, asg: Assignments): map<string, real> {
    map p | p in people :: Share(dishes, asg, p)
  }

  /** What a calculation request produces: the first dish error, or the result
      list and the rounded grand total. */
  function Calculate(raw: seq<RawDish>, people: seq<string>, asg: Assignments, round2: real -> real): Result<Calculation> {
    match Validate(raw)
    case Err(e) => Err(e)
    case Ok(dishes) =>
      Ok(Calculation(Results(Dedup(people), Totals(dishes, people, asg), round2), round2(GrandTotal(dishes))))
  }

  // ---------------------------------------------------------------------
  // The accumulation loop
  // ---------------------------------------------------------------------

  /** The nested loop over dishes and eaters, updating the running totals in
      place and raising on the first malformed dish. */
  method ComputeTotals(raw: seq<RawDish>, people: seq<string>, asg: Assignments)
    returns (res: Result<map<string, real>>)
    ensures Validate(raw).Err? ==> res == Err(Validate(raw).error)
    ensures Validate(raw).Ok? ==> res == Ok(Totals(Validate(raw).value, people, asg))
  {
    var totals := map p | p in people :: 0.0;
    ghost var done: seq<Dish> := [];
    var i := 0;
    while i < |raw|
      invariant 0 <= i <= |raw|
      invariant Validate(raw[..i]) == Ok(done)
      invariant totals.Keys == set p | p in people
      invariant forall p :: p in totals ==> totals[p] == Share(done, asg, p)
    {
      var dish := raw[i];
      if !WellFormed(dish) {
        var e := DishError(dish);
        assert Validate(raw[..i + 1]) == Err(e) by {
          assert raw[..i + 1][..i] == raw[..i] && raw[..i + 1][i] == dish;
        }
        PrefixError(raw, i + 1);
        return Err(e);
      }
      var d := ToDish(dish);
      ghost var before := totals;
      totals := AddDish(totals, d, asg);
      assert Validate(raw[..i + 1]) == Ok(done + [d]) by {
        assert raw[..i + 1][..i] == raw[..i] && raw[..i + 1][i] == dish;
      }
      forall p | p in totals
        ensures totals[p] == Share(done + [d], asg, p)
      {
        ShareSnoc(done, d, asg, p);
      }
      done := done + [d];
      i := i + 1;
    }
    assert raw[..i] == raw;
    assert totals.Keys == Totals(done, people, asg).Keys;
    assert totals == Totals(done, people, asg);
    res := Ok(totals);
  }

  /** One pass of the outer loop: look up the eaters of the dish and, if
      there are any, credit each known one with an equal part of the price. */
  method AddDish(totals: map<string, real>, d: Dish, asg: Assignments) returns (updated: map<string, real>)
    ensures updated.Keys == totals.Keys
    ensures forall p :: p in updated ==> updated[p] == totals[p] + DishShare(d, asg, p)
  {
    var eaters := EatersOf(asg, d.name);
    updated := totals;
    if |eaters| > 0 {
      var pricePerPerson := d.price / (|eaters| as real);
      updated := CreditEaters(totals, eaters, pricePerPerson);
    }
  }

  /** The inner loop: every occurrence of a known eater adds one share to
      that eater; names that are not keys are skipped. */
  method CreditEaters(totals: map<string, real>, eaters: seq<string>, pricePerPerson: real)
    returns (updated: map<string, real>)
    ensures updated.Keys == totals.Keys
    ensures forall p :: p in updated ==> updated[p] == totals[p] + Credit(eaters, p, pricePerPerson)
  {
    updated := totals;
    var j := 0;
    while j < |eaters|
      invariant 0 <= j <= |eaters|
      invariant updated.Keys == totals.Keys
      invariant forall p :: p in updated ==> updated[p] == totals[p] + Credit(eaters[..j], p, pricePerPerson)
    {
      var eater := eaters[j];
      assert eaters[..j + 1][..j] == eaters[..j];
      if eater in updated {
        updated := updated[eater := updated[eater] + pricePerPerson];
      }
      j := j + 1;
    }
    assert eaters[..j] == eaters;
  }

  /** The share of a list with one more dish. */
  lemma ShareSnoc(dishes: seq<Dish>, d: Dish, asg: Assignments, p: string)
    ensures Share(dishes + [d], asg, p) == Share(dishes, asg, p) + DishShare(d, asg, p)
  {
    assert (dishes + [d])[..|dishes|] == dishes;
  }

  /** An error in a prefix of the dishes is the error of the whole list. */
  lemma {:induction false} PrefixError(raw: seq<RawDish>, n: nat)
    requires n <= |raw|
    requires Validate(raw[..n]).Err?
    ensures Validate(raw) == Validate(raw[..n])
    decreases |raw| - n
  {
    if n < |raw| {
      assert raw[..n + 1][..n] == raw[..n];
      PrefixError(raw, n + 1);
    } else {
      assert raw[..n] == raw;
    }
  }
}
