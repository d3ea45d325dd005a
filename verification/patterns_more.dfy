/** The two switch expressions of P157_Patterns_More: a classifier by runtime
    type whose int arm carries a range guard, and a three-band integer classifier. */
module MorePatterns {
  import opened Values
  import opened Patterns

  /** `Describe(object o)`: every string with its length in UTF-16 code units, a boxed int inside or
      outside 1..10, and anything else (null included) as "something else". */
  function Describe(o: Value): (r: Msg)
    ensures r.WithInt? <==> o.VStr?
    ensures o.VStr? ==> r == WithInt("string (", |o.s|, ")")
    ensures r == Text("int between 1 and 10") <==> o.VInt? && 1 <= o.n <= 10
    ensures r == Text("an int") <==> o.VInt? && !(1 <= o.n <= 10)
    ensures r == Text("something else") <==> !o.VStr? && !o.VInt?
  {
    match o
    case VStr(s) => WithInt("string (", |s|, ")")
    case VInt(n) => if n >= 1 && n <= 10 then Text("int between 1 and 10") else Text("an int")
    case _ => Text("something else")
  }

  /** The switch of `Describe` as data. The C# compiler accepts every arm, and
      the list ends in the catch-all `_`. */
  function DescribeArms(): (arms: seq<Arm>)
    ensures AllWellFormed(arms)
    ensures |arms| == 4 && arms[3] == Arm(Discard, None, Lit("something else"))
  {
    [
      Arm(TypeTest(StringType), None, ShowLength("string (", ")")),
      Arm(TypeTest(IntType), Some(Both(IntCmp(Ge, 1), IntCmp(Le, 10))), Lit("int between 1 and 10")),
      Arm(TypeTest(IntType), None, Lit("an int")),
      Arm(Discard, None, Lit("something else"))
    ]
  }

  /** Two instances of the `string (`{s.Length}`)` arm, for readers who expect
      characters rather than code units. `0xD83D 0xDE00` is the UTF-16 encoding of
      U+1F600, written out by hand: one character, length 2. `0xD83D` alone is a
      lone high surrogate, which a C# string may hold: length 1. The general
      statement is the `ensures` of `Describe`, which speaks of `|o.s|`. */
  lemma DescribeCountsCodeUnits()
    ensures Describe(VStr([0xD83D, 0xDE00])) == WithInt("string (", 2, ")")
    ensures Describe(VStr([0xD83D])) == WithInt("string (", 1, ")")
  {
  }

  /** An int outside 1..10 matches the pattern `int n` but fails its guard, so
      evaluation falls through to the arms after it, and `int _` takes it. */
  lemma DescribeGuardFallsThrough(n: Int32)
    requires !(1 <= n <= 10)
    ensures Matches(DescribeArms()[1].pattern, VInt(n)) && !Fires(DescribeArms()[1], VInt(n))
    ensures AllWellFormed(DescribeArms()[2..])
    ensures Evaluate(DescribeArms(), VInt(n)) == Evaluate(DescribeArms()[2..], VInt(n))
    ensures Evaluate(DescribeArms(), VInt(n)) == Selected(Text("an int"))
  {
    var arms, v := DescribeArms(), VInt(n);
    assert !Fires(arms[0], v);
    assert !Fires(arms[1], v) by {
      assert !GuardHolds(Both(IntCmp(Ge, 1), IntCmp(Le, 10)), v);
    }
    SkipNonFiring(arms, v, 2);
    FirstMatchWins(arms, v, 2);
  }

  /** The switch, run as data by the first-match evaluator, agrees with `Describe`. */
  lemma DescribeAgrees(o: Value)
    ensures Evaluate(DescribeArms(), o) == Selected(Describe(o))
  {
    var arms := DescribeArms();
    match o
    case VStr(_) =>
      FirstMatchWins(arms, o, 0);
    case VInt(n) =>
      assert !Fires(arms[0], o);
      if 1 <= n <= 10 {
        assert GuardHolds(IntCmp(Ge, 1), o) && GuardHolds(IntCmp(Le, 10), o);
        FirstMatchWins(arms, o, 1);
      } else {
        DescribeGuardFallsThrough(n);
      }
    case _ =>
      assert !Fires(arms[0], o) && !Fires(arms[1], o) && !Fires(arms[2], o);
      FirstMatchWins(arms, o, 3);
  }

  /** `Relational(int x)`: three bands, both ends of 0..10 inclusive. */
  function Relational(x: Int32): (r: string)
    ensures r == "neg" <==> x < 0
    ensures r == "0..10" <==> 0 <= x <= 10
    ensures r == "big" <==> 10 < x
  {
    if x < 0 then "neg"
    else if x >= 0 && x <= 10 then "0..10"
    else "big"
  }

  /** The switch of `Relational` as data. The C# compiler accepts every arm, and
      the list ends in the catch-all `_`. */
  function RelationalArms(): (arms: seq<Arm>)
    ensures AllWellFormed(arms)
    ensures |arms| == 3 && arms[2] == Arm(Discard, None, Lit("big"))
  {
    [
      Arm(Rel(Lt, 0), None, Lit("neg")),
      Arm(And(Rel(Ge, 0), Rel(Le, 10)), None, Lit("0..10")),
      Arm(Discard, None, Lit("big"))
    ]
  }

  /** The switch, run as data by the first-match evaluator, agrees with `Relational`. */
  lemma RelationalAgrees(x: Int32)
    ensures Evaluate(RelationalArms(), VInt(x)) == Selected(Text(Relational(x)))
  {
    var arms, v := RelationalArms(), VInt(x);
    if x < 0 {
      FirstMatchWins(arms, v, 0);
    } else if x <= 10 {
      assert !Fires(arms[0], v);
      FirstMatchWins(arms, v, 1);
    } else {
      assert !Matches(Rel(Le, 10), v);
      assert !Fires(arms[0], v) && !Fires(arms[1], v);
      FirstMatchWins(arms, v, 2);
    }
  }

  /** The calls made by the sample's `Main`. */
  lemma DemonstratedResults()
    ensures Describe(VStr([0x68, 0x69])) == WithInt("string (", 2, ")")
    ensures Describe(VInt(5)) == Text("int between 1 and 10")
    ensures Describe(VInt(42)) == Text("an int")
    ensures Relational(5) == "0..10"
    ensures Relational(20) == "big"
  {
  }
}
