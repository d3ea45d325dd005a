/** The C# 9 pattern forms the samples use, and the first-match-wins evaluation
    of a switch expression over an ordered list of arms. */
module Patterns {
  import opened Values

  /** The operators of a relational pattern. */
  datatype RelOp = Lt | Le | Gt | Ge

  predicate Compare(op: RelOp, x: int, bound: int) {
    match op
    case Lt => x < bound
    case Le => x <= bound
    case Gt => x > bound
    case Ge => x >= bound
  }

  /** A pattern tree; its shape alone decides how `and`, `or` and `not` group. */
  datatype Pattern =
    | Const(c: Value)                       // `10`, `null`; never `VOther`, see `Writable`
    | Rel(op: RelOp, bound: Int32)          // `< 0`, `>= 0`
    | And(left: Pattern, right: Pattern)    // `p and q`
    | Or(left: Pattern, right: Pattern)     // `p or q`
    | Not(inner: Pattern)                   // `not p`
    | TypeTest(t: TypeTag)                  // `string s`, `int _`
    | Discard                               // `_`

  /** C# matching: a constant or relational pattern on a value of another type
      simply fails to match (it implies a type test), so `not` of it succeeds. */
  predicate Matches(p: Pattern, v: Value)
    ensures Matches(p, v) && p.Rel? ==> v.VInt?
    ensures Matches(p, v) && p.TypeTest? ==> !v.VNull? && !v.VOther?
  {
    match p
    case Const(c) => v == c
    case Rel(op, b) => v.VInt? && Compare(op, v.n, b)
    case And(l, r) => Matches(l, v) && Matches(r, v)
    case Or(l, r) => Matches(l, v) || Matches(r, v)
    case Not(q) => !Matches(q, v)
    case TypeTest(t) => TypeOf(v) == Some(t)
    case Discard => true
  }

  /** A `when` clause. It reads the variable a declaration pattern binds,
      which in these samples is always the switched-on value itself. */
  datatype Guard =
    | LengthIs(k: Int32)                    // `s.Length == k`
    | IntCmp(op: RelOp, bound: Int32)       // `n >= 1`
    | Both(left: Guard, right: Guard)       // `g && h`

  /** The guard only uses members that a variable of type `t` has. */
  predicate GuardFits(g: Guard, t: TypeTag) {
    match g
    case LengthIs(_) => t == StringType
    case IntCmp(_, _) => t == IntType
    case Both(l, r) => GuardFits(l, t) && GuardFits(r, t)
  }

  predicate GuardHolds(g: Guard, v: Value)
    requires TypeOf(v).Some? && GuardFits(g, TypeOf(v).value)
  {
    match g
    case LengthIs(k) => |v.s| == k
    case IntCmp(op, b) => Compare(op, v.n, b)
    case Both(l, r) => GuardHolds(l, v) && GuardHolds(r, v)
  }

  /** The result expression of an arm. */
  datatype Body =
    | Lit(text: string)                           // "negative"
    | QuoteString(before: string, after: string)  // $"string '{s}'"
    | ShowInt(before: string, after: string)      // $"int {n}"
    | ShowLength(before: string, after: string)   // $"string ({s.Length})"

  /** The type of the bound variable the result expression reads, if it reads one. */
  function BodyNeeds(b: Body): Option<TypeTag> {
    match b
    case Lit(_) => None
    case QuoteString(_, _) => Some(StringType)
    case ShowInt(_, _) => Some(IntType)
    case ShowLength(_, _) => Some(StringType)
  }

  function Render(b: Body, v: Value): Msg
    requires BodyNeeds(b).Some? ==> TypeOf(v) == BodyNeeds(b)
  {
    match b
    case Lit(t) => Text(t)
    case QuoteString(before, after) => WithString(before, v.s, after)
    case ShowInt(before, after) => WithInt(before, v.n, after)
    case ShowLength(before, after) => WithInt(before, |v.s|, after)
  }

  /** One arm `pattern when guard => body`. */
  datatype Arm = Arm(pattern: Pattern, guard: Option<Guard>, body: Body)

  /** The type of the variable a declaration pattern introduces. */
  function Declared(p: Pattern): Option<TypeTag> {
    if p.TypeTest? then Some(p.t) else None
  }

  /** Every constant in the pattern is one C# source can write: an int
      literal, a string literal or `null`, never an arbitrary object. */
  predicate Writable(p: Pattern) {
    match p
    case Const(c) => !c.VOther?
    case And(l, r) => Writable(l) && Writable(r)
    case Or(l, r) => Writable(l) && Writable(r)
    case Not(q) => Writable(q)
    case _ => true
  }

  /** What the C# compiler demands of an arm: its constants are literals, and its
      guard and its result use only a variable that its pattern declares, and
      only at the declared type. */
  predicate WellFormed(a: Arm) {
    && Writable(a.pattern)
    && (a.guard.Some? ==> Declared(a.pattern).Some? && GuardFits(a.guard.value, Declared(a.pattern).value))
    && (BodyNeeds(a.body).Some? ==> BodyNeeds(a.body) == Declared(a.pattern))
  }

  predicate AllWellFormed(arms: seq<Arm>) {
    forall i :: 0 <= i < |arms| ==> WellFormed(arms[i])
  }

  /** An arm fires when its pattern matches and its guard, if any, then holds. */
  predicate Fires(a: Arm, v: Value)
    requires WellFormed(a)
  {
    Matches(a.pattern, v) && (a.guard.None? || GuardHolds(a.guard.value, v))
  }

  /** The first arm at or after `from` that fires, scanning in textual order. */
  function FirstFiring(arms: seq<Arm>, v: Value, from: nat): (r: Option<nat>)
    requires from <= |arms| && AllWellFormed(arms)
    ensures r.Some? ==> from <= r.value < |arms| && Fires(arms[r.value], v)
    ensures forall j :: from <= j < |arms| && (r.None? || j < r.value) ==> !Fires(arms[j], v)
    decreases |arms| - from
  {
    if from == |arms| then None
    else if Fires(arms[from], v) then Some(from)
    else FirstFiring(arms, v, from + 1)
  }

  /** The outcome of a switch expression: the first firing arm's result, or the
      `SwitchExpressionException` C# throws when no arm fires. */
  datatype Outcome = Selected(msg: Msg) | NoArmMatched

  function Evaluate(arms: seq<Arm>, v: Value): (r: Outcome)
    requires AllWellFormed(arms)
    ensures r.NoArmMatched? <==> forall j :: 0 <= j < |arms| ==> !Fires(arms[j], v)
    ensures r.Selected? ==> FirstFiring(arms, v, 0).Some? && r.msg == Render(arms[FirstFiring(arms, v, 0).value].body, v)
  {
    match FirstFiring(arms, v, 0)
    case None => NoArmMatched
    case Some(i) => Selected(Render(arms[i].body, v))
  }

  /** First match wins: the arm chosen is the earliest one that fires, whatever
      the arms after it would do. */
  lemma FirstMatchWins(arms: seq<Arm>, v: Value, i: nat)
    requires AllWellFormed(arms) && i < |arms| && Fires(arms[i], v)
    requires forall j :: 0 <= j < i ==> !Fires(arms[j], v)
    ensures FirstFiring(arms, v, 0) == Some(i)
    ensures Evaluate(arms, v) == Selected(Render(arms[i].body, v))
  {
  }

  /** A leading run of arms that do not fire, including arms whose pattern
      matched but whose guard failed, is skipped: evaluation goes on with the
      arms after them. */
  lemma SkipNonFiring(arms: seq<Arm>, v: Value, k: nat)
    requires AllWellFormed(arms) && k <= |arms|
    requires forall j :: 0 <= j < k ==> !Fires(arms[j], v)
    ensures AllWellFormed(arms[k..])
    ensures Evaluate(arms, v) == Evaluate(arms[k..], v)
  {
  }

  /** Any single arm that does not fire, wherever it stands, can be removed
      without changing the outcome. */
  lemma DropNonFiring(arms: seq<Arm>, v: Value, k: nat)
    requires AllWellFormed(arms) && k < |arms| && !Fires(arms[k], v)
    ensures AllWellFormed(arms[..k] + arms[k + 1..])
    ensures Evaluate(arms[..k] + arms[k + 1..], v) == Evaluate(arms, v)
  {
    var rest := arms[..k] + arms[k + 1..];
    assert forall j :: 0 <= j < k ==> rest[j] == arms[j];
    assert forall j :: k <= j < |rest| ==> rest[j] == arms[j + 1];
    match FirstFiring(arms, v, 0)
    case None =>
    case Some(i) =>
      if i < k {
        FirstMatchWins(rest, v, i);
      } else {
        FirstMatchWins(rest, v, i - 1);
      }
  }

  /** Appending arms never changes the outcome of a switch that already selects
      an arm: later arms are never inspected. */
  lemma EarlierArmsDecide(arms: seq<Arm>, more: seq<Arm>, v: Value)
    requires AllWellFormed(arms) && AllWellFormed(more)
    requires Evaluate(arms, v).Selected?
    ensures AllWellFormed(arms + more)
    ensures Evaluate(arms + more, v) == Evaluate(arms, v)
  {
    var all := arms + more;
    assert forall j :: 0 <= j < |arms| ==> all[j] == arms[j];
    assert forall j :: |arms| <= j < |all| ==> all[j] == more[j - |arms|];
    var i := FirstFiring(arms, v, 0).value;
    FirstMatchWins(all, v, i);
  }

  /** A last arm `_` with no guard makes the switch total: it never throws. */
  lemma DiscardLastIsTotal(arms: seq<Arm>, v: Value)
    requires AllWellFormed(arms) && |arms| > 0
    requires arms[|arms| - 1] == Arm(Discard, None, arms[|arms| - 1].body)
    ensures Evaluate(arms, v).Selected?
  {
  }

  /** Patterns built from int constants, relational patterns, `and` and `or`
      carry an implicit `int` type test: they match nothing but ints. */
  predicate IntOnly(p: Pattern) {
    match p
    case Const(c) => c.VInt?
    case Rel(_, _) => true
    case And(l, r) => IntOnly(l) || IntOnly(r)
    case Or(l, r) => IntOnly(l) && IntOnly(r)
    case Not(_) => false
    case TypeTest(t) => t == IntType
    case Discard => false
  }

  lemma {:induction false} IntOnlyMatchesOnlyInts(p: Pattern, v: Value)
    requires IntOnly(p) && Matches(p, v)
    ensures v.VInt?
  {
    match p
    case And(l, r) =>
      if IntOnly(l) { IntOnlyMatchesOnlyInts(l, v); } else { IntOnlyMatchesOnlyInts(r, v); }
    case Or(l, r) =>
      if Matches(l, v) { IntOnlyMatchesOnlyInts(l, v); } else { IntOnlyMatchesOnlyInts(r, v); }
    case _ =>
  }

  /** `not` of such a pattern, by contrast, matches every value that is not an int. */
  lemma {:induction false} NotOfIntOnlyMatchesNonInts(p: Pattern, v: Value)
    requires IntOnly(p) && !v.VInt?
    ensures Matches(Not(p), v)
  {
    if Matches(p, v) {
      IntOnlyMatchesOnlyInts(p, v);
    }
  }
}
