/** What the split calculator promises: one result per named person,
    unassigned dishes add nothing to anyone, every occurrence of an eater adds
    one equal share, and when every dish has only known eaters the shares add
    up to the grand total. */
module SplitProperties {
  import opened BillTypes
  import opened SplitCalculator

  // ---------------------------------------------------------------------
  // The result list
  // ---------------------------------------------------------------------

  /** Every name in `people` has exactly one entry, duplicates collapse, the
      entries follow the order of first appearance, and each amount is the
      rounded share of that person. */
  lemma ResultEntries(raw: seq<RawDish>, people: seq<string>, asg: Assignments, round2: real -> real)
    requires Validate(raw).Ok?
    ensures Calculate(raw, people, asg, round2).Ok?
    ensures var rs := Calculate(raw, people, asg, round2).value.results;
      (forall p :: p in people <==> exists i :: 0 <= i < |rs| && rs[i].name == p) &&
      (forall i, j :: 0 <= i < j < |rs| ==> rs[i].name != rs[j].name) &&
      (forall i, j :: 0 <= i < j < |rs| ==> FirstIndex(people, rs[i].name) < FirstIndex(people, rs[j].name)) &&
      (forall i :: 0 <= i < |rs| ==> rs[i].amount == round2(Share(Validate(raw).value, asg, rs[i].name)))
  {
    var keys := Dedup(people);
    var rs := Calculate(raw, people, asg, round2).value.results;
    assert |rs| == |keys|;
    assert forall i :: 0 <= i < |rs| ==> rs[i].name == keys[i];
    forall p | p in people ensures exists i :: 0 <= i < |rs| && rs[i].name == p {
      var i :| 0 <= i < |keys| && keys[i] == p;
      assert rs[i].name == p;
    }
  }

  /** A request fails exactly when some dish is malformed, and then with the
      error of the first malformed dish. */
  lemma CalculateFailsOnFirstMalformed(raw: seq<RawDish>, people: seq<string>, asg: Assignments, round2: real -> real, k: nat)
    requires k < |raw| && !WellFormed(raw[k])
    requires forall j :: 0 <= j < k ==> WellFormed(raw[j])
    ensures Calculate(raw, people, asg, round2) == Err(DishError(raw[k]))
  {
    var r := Validate(raw);
    assert r.Err?;
    var k' :| 0 <= k' < |raw| && !WellFormed(raw[k']) && r.error == DishError(raw[k']) &&
              forall j :: 0 <= j < k' ==> WellFormed(raw[j]);
    assert k' == k;
  }

  // ---------------------------------------------------------------------
  // Single dishes
  // ---------------------------------------------------------------------

  /** `amount` added up `n` times. */
  function Times(n: nat, amount: real): real {
    if n == 0 then 0.0 else Times(n - 1, amount) + amount
  }

  lemma {:induction false} TimesIsProduct(n: nat, amount: real)
    ensures Times(n, amount) == (n as real) * amount
  {
    if n > 0 {
      TimesIsProduct(n - 1, amount);
      assert (n as real) * amount == ((n - 1) as real) * amount + amount;
    }
  }

  /** Splitting `price` into `n` equal parts and adding them up gives the
      price back. */
  lemma EvenSplit(price: real, n: nat)
    requires n > 0
    ensures Times(n, price / (n as real)) == price
  {
    TimesIsProduct(n, price / (n as real));
    MulDiv(price, n);
  }

  lemma {:induction false} CreditIsRepeated(eaters: seq<string>, p: string, amount: real)
    ensures Credit(eaters, p, amount) == Times(Occurrences(eaters, p), amount)
  {
    if eaters != [] {
      CreditIsRepeated(eaters[..|eaters| - 1], p, amount);
    }
  }

  /** The credit of one pass over `eaters` is one `amount` per occurrence. */
  lemma CreditIsOccurrences(eaters: seq<string>, p: string, amount: real)
    ensures Credit(eaters, p, amount) == (Occurrences(eaters, p) as real) * amount
  {
    CreditIsRepeated(eaters, p, amount);
    TimesIsProduct(Occurrences(eaters, p), amount);
  }

  /** Adding a dish with a non-empty eater list adds `price / len(eaters)` to
      `p` once for each occurrence of `p` in the list. The divisor counts
      every entry of the list, known person or not. */
  lemma EaterGetsShare(dishes: seq<Dish>, d: Dish, asg: Assignments, p: string)
    requires |EatersOf(asg, d.name)| > 0
    ensures var eaters := EatersOf(asg, d.name);
      Share(dishes + [d], asg, p) == Share(dishes, asg, p) + Times(Occurrences(eaters, p), d.price / (|eaters| as real))
  {
    var eaters := EatersOf(asg, d.name);
    ShareSnoc(dishes, d, asg, p);
    CreditIsRepeated(eaters, p, d.price / (|eaters| as real));
  }

  /** The shares of two lists of dishes add up. */
  lemma {:induction false} ShareAppend(a: seq<Dish>, b: seq<Dish>, asg: Assignments, p: string)
    ensures Share(a + b, asg, p) == Share(a, asg, p) + Share(b, asg, p)
  {
    if b == [] {
      assert a + b == a;
    } else {
      var init := b[..|b| - 1];
      var last := b[|b| - 1];
      assert Share(a + init, asg, p) == Share(a, asg, p) + Share(init, asg, p) by {
        ShareAppend(a, init, asg, p);
      }
      assert Share(a + b, asg, p) == Share(a + init, asg, p) + DishShare(last, asg, p) by {
        assert a + b == (a + init) + [last];
        ShareSnoc(a + init, last, asg, p);
      }
      assert Share(b, asg, p) == Share(init, asg, p) + DishShare(last, asg, p) by {
        assert init + [last] == b;
        ShareSnoc(init, last, asg, p);
      }
    }
  }

  /** A dish with no entry in `asg`, or an empty one, changes nobody's share:
      removing it from the list leaves every share as it was. */
  lemma UnassignedDishAddsNothing(dishes: seq<Dish>, k: nat, asg: Assignments, p: string)
    requires k < |dishes| && EatersOf(asg, dishes[k].name) == []
    ensures Share(dishes[..k] + dishes[k + 1..], asg, p) == Share(dishes, asg, p)
  {
    var before, after := dishes[..k], dishes[k + 1..];
    assert dishes == (before + [dishes[k]]) + after;
    ShareAppend(before + [dishes[k]], after, asg, p);
    ShareSnoc(before, dishes[k], asg, p);
    ShareAppend(before, after, asg, p);
  }

  /** Without any assignment every share stays at its starting value 0. */
  lemma {:induction false} NoAssignmentsNoShares(dishes: seq<Dish>, p: string)
    ensures Share(dishes, map[], p) == 0.0
  {
    if dishes != [] {
      NoAssignmentsNoShares(dishes[..|dishes| - 1], p);
    }
  }

  /** A person who occurs in no eater list owes nothing. */
  lemma {:induction false} NonEaterOwesNothing(dishes: seq<Dish>, asg: Assignments, p: string)
    requires forall i :: 0 <= i < |dishes| ==> p !in EatersOf(asg, dishes[i].name)
    ensures Share(dishes, asg, p) == 0.0
  {
    if dishes != [] {
      NonEaterOwesNothing(dishes[..|dishes| - 1], asg, p);
      var eaters := EatersOf(asg, dishes[|dishes| - 1].name);
      if |eaters| > 0 {
        CreditAbsent(eaters, p, dishes[|dishes| - 1].price / (|eaters| as real));
      }
    }
  }

  lemma MulDiv(price: real, n: nat)
    requires n > 0
    ensures (n as real) * (price / (n as real)) == price
  {
  }

  // ---------------------------------------------------------------------
  // Conservation
  // ---------------------------------------------------------------------

  /** The sum of the unrounded shares of `keys`. */
  function SumShares(keys: seq<string>, dishes: seq<Dish>, asg: Assignments): real {
    if keys == [] then 0.0
    else SumShares(keys[..|keys| - 1], dishes, asg) + Share(dishes, asg, keys[|keys| - 1])
  }

  function SumDishShares(keys: seq<string>, d: Dish, asg: Assignments): real {
    if keys == [] then 0.0
    else SumDishShares(keys[..|keys| - 1], d, asg) + DishShare(d, asg, keys[|keys| - 1])
  }

  function SumCredits(keys: seq<string>, eaters: seq<string>, amount: real): real {
    if keys == [] then 0.0
    else SumCredits(keys[..|keys| - 1], eaters, amount) + Credit(eaters, keys[|keys| - 1], amount)
  }

  /** Every eater of every dish is one of `people`. */
  predicate EatersKnown(dishes: seq<Dish>, asg: Assignments, people: seq<string>) {
    forall i, x :: 0 <= i < |dishes| && x in EatersOf(asg, dishes[i].name) ==> x in people
  }

  /** Every dish has at least one eater. */
  predicate AllAssigned(dishes: seq<Dish>, asg: Assignments) {
    forall i :: 0 <= i < |dishes| ==> |EatersOf(asg, dishes[i].name)| > 0
  }

  lemma {:induction false} CreditAbsent(eaters: seq<string>, x: string, amount: real)
    requires x !in eaters
    ensures Credit(eaters, x, amount) == 0.0
  {
    if eaters != [] {
      CreditAbsent(eaters[..|eaters| - 1], x, amount);
    }
  }

  lemma {:induction false} CreditOnce(keys: seq<string>, x: string, amount: real)
    requires Distinct(keys) && x in keys
    ensures Credit(keys, x, amount) == amount
  {
    var init := keys[..|keys| - 1];
    if keys[|keys| - 1] == x {
      assert x !in init;
      CreditAbsent(init, x, amount);
    } else {
      CreditOnce(init, x, amount);
    }
  }

  lemma {:induction false} SumCreditsSnoc(keys: seq<string>, eaters: seq<string>, x: string, amount: real)
    ensures SumCredits(keys, eaters + [x], amount) == SumCredits(keys, eaters, amount) + Credit(keys, x, amount)
  {
    assert (eaters + [x])[..|eaters|] == eaters;
    if keys != [] {
      SumCreditsSnoc(keys[..|keys| - 1], eaters, x, amount);
    }
  }

  /** Over distinct keys that include every eater, the credits of one pass add
      up to one `amount` per entry of the eater list. */
  lemma {:induction false} SumCreditsAll(keys: seq<string>, eaters: seq<string>, amount: real)
    requires Distinct(keys) && forall x :: x in eaters ==> x in keys
    ensures SumCredits(keys, eaters, amount) == Times(|eaters|, amount)
  {
    if eaters == [] {
      SumCreditsEmpty(keys, amount);
    } else {
      var init := eaters[..|eaters| - 1];
      var x := eaters[|eaters| - 1];
      assert init + [x] == eaters;
      SumCreditsAll(keys, init, amount);
      SumCreditsSnoc(keys, init, x, amount);
      CreditOnce(keys, x, amount);
    }
  }

  lemma {:induction false} SumCreditsEmpty(keys: seq<string>, amount: real)
    ensures SumCredits(keys, [], amount) == 0.0
  {
    if keys != [] {
      SumCreditsEmpty(keys[..|keys| - 1], amount);
    }
  }

  lemma {:induction false} SumDishSharesIsCredits(keys: seq<string>, d: Dish, asg: Assignments)
    requires |EatersOf(asg, d.name)| > 0
    ensures var eaters := EatersOf(asg, d.name);
      SumDishShares(keys, d, asg) == SumCredits(keys, eaters, d.price / (|eaters| as real))
  {
    if keys != [] {
      SumDishSharesIsCredits(keys[..|keys| - 1], d, asg);
    }
  }

  lemma {:induction false} SumDishSharesUnassigned(keys: seq<string>, d: Dish, asg: Assignments)
    requires |EatersOf(asg, d.name)| == 0
    ensures SumDishShares(keys, d, asg) == 0.0
  {
    if keys != [] {
      SumDishSharesUnassigned(keys[..|keys| - 1], d, asg);
    }
  }

  lemma {:induction false} SumSharesSnoc(keys: seq<string>, dishes: seq<Dish>, d: Dish, asg: Assignments)
    ensures SumShares(keys, dishes + [d], asg) == SumShares(keys, dishes, asg) + SumDishShares(keys, d, asg)
  {
    assert (dishes + [d])[..|dishes|] == dishes;
    if keys != [] {
      SumSharesSnoc(keys[..|keys| - 1], dishes, d, asg);
    }
  }

  lemma {:induction false} SumSharesNoDishes(keys: seq<string>, asg: Assignments)
    ensures SumShares(keys, [], asg) == 0.0
  {
    if keys != [] {
      SumSharesNoDishes(keys[..|keys| - 1], asg);
    }
  }

  /** When every eater is a known key, the unrounded shares add up to the
      prices of the dishes that have eaters. */
  lemma {:induction false} SharesSumToAssignedTotal(keys: seq<string>, dishes: seq<Dish>, asg: Assignments)
    requires Distinct(keys) && EatersKnown(dishes, asg, keys)
    ensures SumShares(keys, dishes, asg) == AssignedTotal(dishes, asg)
  {
    if dishes == [] {
      SumSharesNoDishes(keys, asg);
    } else {
      var init := dishes[..|dishes| - 1];
      var d := dishes[|dishes| - 1];
      assert init + [d] == dishes;
      assert EatersKnown(init, asg, keys) by {
        forall i, x | 0 <= i < |init| && x in EatersOf(asg, init[i].name) ensures x in keys {
          assert init[i] == dishes[i];
        }
      }
      SharesSumToAssignedTotal(keys, init, asg);
      SumSharesSnoc(keys, init, d, asg);
      var eaters := EatersOf(asg, d.name);
      if |eaters| > 0 {
        var amount := d.price / (|eaters| as real);
        SumDishSharesIsCredits(keys, d, asg);
        assert forall x :: x in eaters ==> x in keys by {
          forall x | x in eaters ensures x in keys {
            assert x in EatersOf(asg, dishes[|dishes| - 1].name);
          }
        }
        SumCreditsAll(keys, eaters, amount);
        EvenSplit(d.price, |eaters|);
      } else {
        SumDishSharesUnassigned(keys, d, asg);
      }
    }
  }

  /** The grand total is what the dishes with eaters cost plus what the dishes
      without eaters cost. */
  lemma {:induction false} GrandTotalSplits(dishes: seq<Dish>, asg: Assignments)
    ensures GrandTotal(dishes) == AssignedTotal(dishes, asg) + UnassignedTotal(dishes, asg)
  {
    if dishes != [] {
      GrandTotalSplits(dishes[..|dishes| - 1], asg);
    }
  }

  /** The grand total depends on the dishes alone: the people and the
      assignments do not change it. */
  lemma TotalIgnoresAssignments(raw: seq<RawDish>, people1: seq<string>, asg1: Assignments,
                                people2: seq<string>, asg2: Assignments, round2: real -> real)
    requires Validate(raw).Ok?
    ensures Calculate(raw, people1, asg1, round2).value.total == Calculate(raw, people2, asg2, round2).value.total
              == round2(GrandTotal(Validate(raw).value))
  {
  }

  /** When every eater is one of `people`, the unrounded amounts of the result
      entries fall short of the grand total by exactly the price of the dishes
      nobody shared; when every dish has an eater they add up to it. */
  lemma SharesSumToTotal(dishes: seq<Dish>, people: seq<string>, asg: Assignments)
    requires EatersKnown(dishes, asg, people)
    ensures SumShares(Dedup(people), dishes, asg) == GrandTotal(dishes) - UnassignedTotal(dishes, asg)
    ensures AllAssigned(dishes, asg) ==> SumShares(Dedup(people), dishes, asg) == GrandTotal(dishes)
  {
    var keys := Dedup(people);
    assert EatersKnown(dishes, asg, keys);
    SharesSumToAssignedTotal(keys, dishes, asg);
    GrandTotalSplits(dishes, asg);
    if AllAssigned(dishes, asg) {
      NothingUnassigned(dishes, asg);
    }
  }

  lemma {:induction false} NothingUnassigned(dishes: seq<Dish>, asg: Assignments)
    requires AllAssigned(dishes, asg)
    ensures UnassignedTotal(dishes, asg) == 0.0
  {
    if dishes != [] {
      var init := dishes[..|dishes| - 1];
      assert AllAssigned(init, asg) by {
        forall i | 0 <= i < |init| ensures |EatersOf(asg, init[i].name)| > 0 {
          assert init[i] == dishes[i];
        }
      }
      NothingUnassigned(init, asg);
    }
  }

  // ---------------------------------------------------------------------
  // Worked examples
  // ---------------------------------------------------------------------

  function Pizza(): RawDish { RawDish(Given("Pizza"), Given(300.0)) }
  function Soda(): RawDish { RawDish(Given("Soda"), Given(60.0)) }

  lemma CreditSnoc(eaters: seq<string>, e: string, p: string, amount: real)
    ensures Credit(eaters + [e], p, amount) == Credit(eaters, p, amount) + (if e == p then amount else 0.0)
  {
    assert (eaters + [e])[..|eaters|] == eaters;
  }

  lemma ValidateOne(x: RawDish)
    requires WellFormed(x)
    ensures Validate([x]) == Ok([ToDish(x)])
  {
    var r := Validate([x]);
    assert |r.value| == 1 && r.value[0] == ToDish(x);
    assert r.value == [ToDish(x)];
  }

  lemma ValidateTwo(x: RawDish, y: RawDish)
    requires WellFormed(x) && WellFormed(y)
    ensures Validate([x, y]) == Ok([ToDish(x), ToDish(y)])
  {
    var r := Validate([x, y]);
    assert |r.value| == 2 && r.value[0] == ToDish(x) && r.value[1] == ToDish(y);
    assert r.value == [ToDish(x), ToDish(y)];
  }

  lemma DedupAB()
    ensures Dedup(["A"]) == ["A"]
    ensures Dedup(["A", "B"]) == ["A", "B"]
  {
    assert ["A"][..0] == [];
    assert ["A", "B"][..1] == ["A"];
  }

  /** The result list of a successful calculation, entry by entry. */
  lemma ResultsAt(raw: seq<RawDish>, people: seq<string>, asg: Assignments, round2: real -> real, i: nat)
    requires Validate(raw).Ok? && i < |Dedup(people)|
    ensures var rs := Calculate(raw, people, asg, round2).value.results;
      |rs| == |Dedup(people)| &&
      rs[i] == PersonTotal(Dedup(people)[i], round2(Share(Validate(raw).value, asg, Dedup(people)[i])))
  {
  }

  lemma CalculateOne(raw: seq<RawDish>, people: seq<string>, asg: Assignments, round2: real -> real, a: string)
    requires Validate(raw).Ok? && Dedup(people) == [a]
    ensures var ds := Validate(raw).value;
      Calculate(raw, people, asg, round2) ==
      Ok(Calculation([PersonTotal(a, round2(Share(ds, asg, a)))], round2(GrandTotal(ds))))
  {
    var ds := Validate(raw).value;
    ResultsAt(raw, people, asg, round2, 0);
    var rs := Calculate(raw, people, asg, round2).value.results;
    assert rs == [PersonTotal(a, round2(Share(ds, asg, a)))];
  }

  lemma CalculateTwo(raw: seq<RawDish>, people: seq<string>, asg: Assignments, round2: real -> real, a: string, b: string)
    requires Validate(raw).Ok? && Dedup(people) == [a, b]
    ensures var ds := Validate(raw).value;
      Calculate(raw, people, asg, round2) ==
      Ok(Calculation([PersonTotal(a, round2(Share(ds, asg, a))), PersonTotal(b, round2(Share(ds, asg, b)))], round2(GrandTotal(ds))))
  {
    var ds := Validate(raw).value;
    ResultsAt(raw, people, asg, round2, 0);
    ResultsAt(raw, people, asg, round2, 1);
    var rs := Calculate(raw, people, asg, round2).value.results;
    assert rs == [PersonTotal(a, round2(Share(ds, asg, a))), PersonTotal(b, round2(Share(ds, asg, b)))];
  }

  lemma PizzaSodaTotal()
    ensures GrandTotal([Dish("Pizza", 300.0)]) == 300.0
    ensures GrandTotal([Dish("Pizza", 300.0), Dish("Soda", 60.0)]) == 360.0
  {
    assert [Dish("Pizza", 300.0)][..0] == [];
    assert [Dish("Pizza", 300.0), Dish("Soda", 60.0)][..1] == [Dish("Pizza", 300.0)];
  }

  lemma SharedPizzaShares()
    ensures var asg := map["Pizza" := ["A", "B"], "Soda" := ["A"]];
      Share([Dish("Pizza", 300.0), Dish("Soda", 60.0)], asg, "A") == 210.0 &&
      Share([Dish("Pizza", 300.0), Dish("Soda", 60.0)], asg, "B") == 150.0
  {
    var asg := map["Pizza" := ["A", "B"], "Soda" := ["A"]];
    var d0, d1 := Dish("Pizza", 300.0), Dish("Soda", 60.0);
    assert "Pizza" != "Soda";
    assert EatersOf(asg, "Pizza") == [] + ["A"] + ["B"];
    assert EatersOf(asg, "Soda") == [] + ["A"];
    CreditSnoc([], "A", "A", 150.0);
    CreditSnoc(["A"], "B", "A", 150.0);
    CreditSnoc([], "A", "B", 150.0);
    CreditSnoc(["A"], "B", "B", 150.0);
    CreditSnoc([], "A", "A", 60.0);
    CreditSnoc([], "A", "B", 60.0);
    ShareSnoc([], d0, asg, "A");
    ShareSnoc([d0], d1, asg, "A");
    ShareSnoc([], d0, asg, "B");
    ShareSnoc([d0], d1, asg, "B");
    assert [d0, d1] == [d0] + [d1];
  }

  /** Pizza shared by A and B, Soda by A alone: A owes 210, B owes 150, the
      bill is 360. */
  lemma SharedPizzaExample(round2: real -> real)
    ensures Calculate([Pizza(), Soda()], ["A", "B"], map["Pizza" := ["A", "B"], "Soda" := ["A"]], round2)
         == Ok(Calculation([PersonTotal("A", round2(210.0)), PersonTotal("B", round2(150.0))], round2(360.0)))
  {
    ValidateTwo(Pizza(), Soda());
    DedupAB();
    SharedPizzaShares();
    PizzaSodaTotal();
    CalculateTwo([Pizza(), Soda()], ["A", "B"], map["Pizza" := ["A", "B"], "Soda" := ["A"]], round2, "A", "B");
  }

  /** The same dishes with no assignments: everyone owes 0, the bill is
      still 360. */
  lemma NoAssignmentsExample(round2: real -> real)
    ensures Calculate([Pizza(), Soda()], ["A", "B"], map[], round2)
         == Ok(Calculation([PersonTotal("A", round2(0.0)), PersonTotal("B", round2(0.0))], round2(360.0)))
  {
    var ds := [Dish("Pizza", 300.0), Dish("Soda", 60.0)];
    ValidateTwo(Pizza(), Soda());
    DedupAB();
    PizzaSodaTotal();
    NoAssignmentsNoShares(ds, "A");
    NoAssignmentsNoShares(ds, "B");
    CalculateTwo([Pizza(), Soda()], ["A", "B"], map[], round2, "A", "B");
  }

  lemma UnknownEaterShares()
    ensures Share([Dish("Pizza", 300.0)], map["Pizza" := ["A", "Z"]], "A") == 150.0
  {
    var d0 := Dish("Pizza", 300.0);
    var asg := map["Pizza" := ["A", "Z"]];
    assert EatersOf(asg, "Pizza") == [] + ["A"] + ["Z"];
    CreditSnoc([], "A", "A", 150.0);
    CreditSnoc(["A"], "Z", "A", 150.0);
    ShareSnoc([], d0, asg, "A");
    assert [d0] == [] + [d0];
  }

  /** An eater who is not one of the people still counts in the divisor:
      A owes half the pizza and the other half is in nobody's amount. */
  lemma UnknownEaterExample(round2: real -> real)
    ensures Calculate([Pizza()], ["A"], map["Pizza" := ["A", "Z"]], round2)
         == Ok(Calculation([PersonTotal("A", round2(150.0))], round2(300.0)))
  {
    UnknownEaterShares();
    ValidateOne(Pizza());
    DedupAB();
    PizzaSodaTotal();
    CalculateOne([Pizza()], ["A"], map["Pizza" := ["A", "Z"]], round2, "A");
  }

  lemma RepeatedEaterShares()
    ensures var asg := map["Pizza" := ["A", "A", "B"]];
      Share([Dish("Pizza", 300.0)], asg, "A") == 200.0 && Share([Dish("Pizza", 300.0)], asg, "B") == 100.0
  {
    var d0 := Dish("Pizza", 300.0);
    var asg := map["Pizza" := ["A", "A", "B"]];
    var e1: seq<string> := [] + ["A"];
    var e2 := e1 + ["A"];
    var e3 := e2 + ["B"];
    assert EatersOf(asg, "Pizza") == e3;
    CreditSnoc([], "A", "A", 100.0);
    CreditSnoc(e1, "A", "A", 100.0);
    CreditSnoc(e2, "B", "A", 100.0);
    CreditSnoc([], "A", "B", 100.0);
    CreditSnoc(e1, "A", "B", 100.0);
    CreditSnoc(e2, "B", "B", 100.0);
    assert DishShare(d0, asg, "A") == 200.0;
    assert DishShare(d0, asg, "B") == 100.0;
    ShareSnoc([], d0, asg, "A");
    ShareSnoc([], d0, asg, "B");
    assert [d0] == [] + [d0];
  }

  /** A name listed twice among the eaters of a dish is credited twice. */
  lemma RepeatedEaterExample(round2: real -> real)
    ensures Calculate([Pizza()], ["A", "B"], map["Pizza" := ["A", "A", "B"]], round2)
         == Ok(Calculation([PersonTotal("A", round2(200.0)), PersonTotal("B", round2(100.0))], round2(300.0)))
  {
    RepeatedEaterShares();
    ValidateOne(Pizza());
    DedupAB();
    PizzaSodaTotal();
    CalculateTwo([Pizza()], ["A", "B"], map["Pizza" := ["A", "A", "B"]], round2, "A", "B");
  }

  /** A name given twice among the people has one entry, at its first place. */
  lemma RepeatedPersonExample(round2: real -> real)
    ensures Calculate([], ["A", "B", "A"], map[], round2)
         == Ok(Calculation([PersonTotal("A", round2(0.0)), PersonTotal("B", round2(0.0))], round2(0.0)))
  {
    DedupAB();
    assert ["A", "B", "A"][..2] == ["A", "B"];
    assert Dedup(["A", "B", "A"]) == ["A", "B"];
    CalculateTwo([], ["A", "B", "A"], map[], round2, "A", "B");
  }

  /** A dish whose name cannot be a key but whose price is missing reports
      the missing price, and the dishes after it are never read. */
  lemma MissingPriceFirstExample(round2: real -> real)
    ensures Calculate([RawDish(Malformed, Absent), RawDish(Absent, Absent)], ["A"], map[], round2) == Err(MissingPrice)
  {
    CalculateFailsOnFirstMalformed([RawDish(Malformed, Absent), RawDish(Absent, Absent)], ["A"], map[], round2, 0);
  }
}
