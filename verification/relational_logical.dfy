/** The two switch expressions of P140_Patterns_Relational_Logical: an integer
    classifier built from relational and logical patterns, and a classifier by
    runtime type with a `when` guard. */
module RelationalLogical {
  import opened Values
  import opened Patterns

  /** `Classify(int x)`: five bands, the arms tried top to bottom. */
  function Classify(x: Int32): (r: string)
    ensures r == "negative" <==> x < 0
    ensures r == "small non-negative" <==> 0 <= x < 10
    ensures r == "ten-ish" <==> 10 <= x <= 12
    ensures r == "not greater than 100" <==> 13 <= x <= 100
    ensures r == "big" <==> 100 < x
  {
    if x < 0 then "negative"
    else if x >= 0 && x < 10 then "small non-negative"
    else if x == 10 || x == 11 || x == 12 then "ten-ish"
    else if !(x > 100) then "not greater than 100"
    else "big"
  }

  /** The same switch as data, arm by arm. The C# compiler accepts every arm,
      and the list ends in the catch-all `_`. */
  function ClassifyArms(): (arms: seq<Arm>)
    ensures AllWellFormed(arms)
    ensures |arms| == 5 && arms[4] == Arm(Discard, None, Lit("big"))
  {
    [
      Arm(Rel(Lt, 0), None, Lit("negative")),
      Arm(And(Rel(Ge, 0), Rel(Lt, 10)), None, Lit("small non-negative")),
      Arm(Or(Or(Const(VInt(10)), Const(VInt(11))), Const(VInt(12))), None, Lit("ten-ish")),
      Arm(Not(Rel(Gt, 100)), None, Lit("not greater than 100")),
      Arm(Discard, None, Lit("big"))
    ]
  }

  /** Which arm of `Classify` fires for `x`: arm 3, `not (> 100)`, although its
      pattern alone matches every `x <= 100`, is reached only for 13..100. */
  lemma ClassifySelects(x: Int32)
    ensures FirstFiring(ClassifyArms(), VInt(x), 0) == Some(
      if x < 0 then 0
      else if x < 10 then 1
      else if x <= 12 then 2
      else if x <= 100 then 3
      else 4)
  {
    var arms, v := ClassifyArms(), VInt(x);
    if x < 0 {
      FirstMatchWins(arms, v, 0);
    } else if x < 10 {
      assert !Fires(arms[0], v);
      FirstMatchWins(arms, v, 1);
    } else if x <= 12 {
      assert !Fires(arms[0], v) && !Fires(arms[1], v);
      FirstMatchWins(arms, v, 2);
    } else if x <= 100 {
      TenIshPattern(v);
      assert !Matches(Rel(Lt, 10), v);
      assert !Fires(arms[0], v) && !Fires(arms[1], v) && !Fires(arms[2], v);
      FirstMatchWins(arms, v, 3);
    } else {
      TenIshPattern(v);
      assert !Matches(Rel(Lt, 10), v);
      assert Matches(Rel(Gt, 100), v);
      assert !Fires(arms[0], v) && !Fires(arms[1], v) && !Fires(arms[2], v) && !Fires(arms[3], v);
      FirstMatchWins(arms, v, 4);
    }
  }

  /** Shadowing by earlier arms: `not (> 100)` on its own accepts every int up
      to 100, negatives included, yet its arm yields only for 13..100. */
  lemma NotGreaterThan100Shadowed(x: Int32)
    ensures Matches(ClassifyArms()[3].pattern, VInt(x)) <==> x <= 100
    ensures FirstFiring(ClassifyArms(), VInt(x), 0) == Some(3) <==> 13 <= x <= 100
  {
    ClassifySelects(x);
  }

  /** `>= 0 and < 10` accepts exactly the values 0..9. */
  lemma SmallNonNegativePattern(v: Value)
    ensures Matches(ClassifyArms()[1].pattern, v) <==> v.VInt? && 0 <= v.n < 10
  {
  }

  /** `10 or 11 or 12` accepts exactly those three values. */
  lemma TenIshPattern(v: Value)
    ensures Matches(ClassifyArms()[2].pattern, v) <==> v.VInt? && 10 <= v.n <= 12
  {
    var ten, eleven, twelve := Const(VInt(10)), Const(VInt(11)), Const(VInt(12));
    assert ClassifyArms()[2].pattern == Or(Or(ten, eleven), twelve);
    assert Matches(Or(ten, eleven), v) <==> v == VInt(10) || v == VInt(11);
    assert Matches(twelve, v) <==> v == VInt(12);
  }

  /** The switch, run as data by the first-match evaluator, agrees with `Classify`. */
  lemma ClassifyAgrees(x: Int32)
    ensures Evaluate(ClassifyArms(), VInt(x)) == Selected(Text(Classify(x)))
  {
    ClassifySelects(x);
  }

  /** `TypeCheck(object o)`: the empty string, any other string quoted, a boxed
      int with its value, and everything else (null included) as "other". */
  function TypeCheck(o: Value): (r: Msg)
    ensures r == Text("empty string") <==> o == VStr([])
    ensures r.WithString? <==> o.VStr? && o.s != []
    ensures r.WithString? ==> r == WithString("string '", o.s, "'")
    ensures r.WithInt? <==> o.VInt?
    ensures o.VInt? ==> r == WithInt("int ", o.n, "")
    ensures r == Text("other") <==> !o.VStr? && !o.VInt?
  {
    match o
    case VStr(s) => if |s| == 0 then Text("empty string") else WithString("string '", s, "'")
    case VInt(n) => WithInt("int ", n, "")
    case _ => Text("other")
  }

  /** Two different strings never get the same message. */
  lemma TypeCheckDistinguishesStrings(s1: CsString, s2: CsString)
    requires s1 != s2
    ensures TypeCheck(VStr(s1)) != TypeCheck(VStr(s2))
  {
  }

  /** The switch of `TypeCheck` as data. The C# compiler accepts every arm, and
      the list ends in the catch-all `_`. */
  function TypeCheckArms(): (arms: seq<Arm>)
    ensures AllWellFormed(arms)
    ensures |arms| == 4 && arms[3] == Arm(Discard, None, Lit("other"))
  {
    [
      Arm(TypeTest(StringType), Some(LengthIs(0)), Lit("empty string")),
      Arm(TypeTest(StringType), None, QuoteString("string '", "'")),
      Arm(TypeTest(IntType), None, ShowInt("int ", "")),
      Arm(Discard, None, Lit("other"))
    ]
  }

  /** The empty string matches both string arms; the guarded one, being first, wins. */
  lemma EmptyStringTakesGuardedArm()
    ensures Fires(TypeCheckArms()[0], VStr([])) && Fires(TypeCheckArms()[1], VStr([]))
    ensures FirstFiring(TypeCheckArms(), VStr([]), 0) == Some(0)
  {
  }

  lemma TypeCheckAgrees(o: Value)
    ensures Evaluate(TypeCheckArms(), o) == Selected(TypeCheck(o))
  {
  }

  /** The calls made by the sample's `Main`. */
  lemma DemonstratedResults()
    ensures Classify(-3) == "negative"
    ensures Classify(5) == "small non-negative"
    ensures Classify(11) == "ten-ish"
    ensures Classify(150) == "big"
    ensures TypeCheck(VStr([])) == Text("empty string")
    ensures TypeCheck(VInt(42)) == WithInt("int ", 42, "")
  {
  }
}
