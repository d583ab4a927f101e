/** The Kconfig expression simplifier: scripts/kconfig/expr.c.

    Expressions over three-valued symbols are rewritten by expr_transform, expr_eliminate_yn and expr_eliminate_dups.
    The rewrites work on nodes in place; the nodes form a tree, so here a rewrite is a function from tree to tree, and
    where the source holds two pointers into one tree the model holds two indices into its row of operands.
 */
module Kconfig {
  import opened Errno

  /** no, mod, yes. */
  type Tri = x: int | 0 <= x <= 2

  datatype SymType = Unknown | Boolean | Tristate | Int | Hex | Str

  /** A symbol of the configuration, or a constant. There is one constant for each quoted text, and it has no type. */
  datatype Symbol = Config(name: string, kind: SymType) | Const(name: string)
  {
    const stype: SymType := if Config? then kind else Unknown
    const isConst: bool := Const?
  }

  const YES := Const("y")
  const MOD := Const("m")
  const NO := Const("n")

  datatype Rel = Eq | Ne | Lt | Le | Gt | Ge

  datatype Op = AndOp | OrOp

  datatype Expr =
    | Sym(s: Symbol) | Cmp(rel: Rel, l: Symbol, r: Symbol) | Not(e: Expr) | Bin(op: Op, left: Expr, right: Expr)

  /** What the symbols are worth: a value each, and the sign of the comparison of each two. */
  datatype Env = Env(tri: Symbol -> Tri, cmp: (Symbol, Symbol) -> int)

  function Apply(op: Op, x: Tri, y: Tri): Tri {
    if op.AndOp? then (if x < y then x else y) else (if x > y then x else y)
  }

  function Unit(op: Op): Symbol {
    if op.AndOp? then YES else NO
  }

  predicate Related(rel: Rel, res: int) {
    match rel
    case Eq => res == 0
    case Ne => res != 0
    case Lt => res < 0
    case Le => res <= 0
    case Gt => res > 0
    case Ge => res >= 0
  }

  /** expr_calc_value. */
  function Eval(env: Env, e: Expr): Tri {
    match e
    case Sym(s) => env.tri(s)
    case Cmp(rel, l, r) => if Related(rel, env.cmp(l, r)) then 2 else 0
    case Not(x) => 2 - Eval(env, x)
    case Bin(op, l, r) => Apply(op, Eval(env, l), Eval(env, r))
  }

  predicate Logical(s: Symbol) {
    s.stype.Boolean? || s.stype.Tristate?
  }

  /** The value of a digit, whatever the base. */
  function Digit(c: char): Option<nat> {
    if '0' <= c <= '9' then Some((c - '0') as nat)
    else if 'a' <= c <= 'f' then Some((c - 'a') as nat + 10)
    else if 'A' <= c <= 'F' then Some((c - 'A') as nat + 10)
    else None
  }

  /** All of the text read as digits of that base, behind a number already read. */
  function Digits(t: string, base: nat, read: nat): Option<nat> {
    if t == "" then Some(read)
    else if Digit(t[0]).None? || Digit(t[0]).value >= base then None
    else Digits(t[1..], base, base * read + Digit(t[0]).value)
  }

  /** A number without a sign: hexadecimal behind 0x, octal behind 0, and decimal otherwise. */
  function Unsigned(t: string): Option<nat> {
    if t == "" then None
    else if |t| > 2 && t[0] == '0' && (t[1] == 'x' || t[1] == 'X') then Digits(t[2..], 16, 0)
    else Digits(t, if t[0] == '0' then 8 else 10, 0)
  }

  predicate IsSpace(c: char) {
    c == ' ' || '\t' <= c <= '\r'
  }

  function SkipSpace(t: string): string {
    if t != "" && IsSpace(t[0]) then SkipSpace(t[1..]) else t
  }

  const LLONG_MAX: int := 0x7FFF_FFFF_FFFF_FFFF

  /** expr_parse_string for a symbol without a type: the number that strtoll reads in base 0, if it reads all of it. */
  function Numeral(text: string): Option<int> {
    var t := SkipSpace(text);
    var minus := t != "" && t[0] == '-';
    var n := Unsigned(if t != "" && (t[0] == '-' || t[0] == '+') then t[1..] else t);
    if n.None? then None
    else
      var v := if minus then 0 - n.value as int else n.value as int;
      if -LLONG_MAX - 1 <= v <= LLONG_MAX then Some(v) else None
  }

  /** sym_get_string_value of a boolean or tristate symbol. */
  function Letter(t: Tri): string {
    if t == 0 then "n" else if t == 1 then "m" else "y"
  }

  function Sign(x: int): int {
    if x < 0 then -1 else if x > 0 then 1 else 0
  }

  /** strcmp. */
  function StrCmp(a: string, b: string): int {
    if a == "" || b == "" then Sign(|a| - |b|)
    else if a[0] != b[0] then (if a[0] < b[0] then -1 else 1)
    else StrCmp(a[1..], b[1..])
  }

  /** The comparison in expr_calc_value of a boolean or tristate symbol that is worth t with a constant: as numbers if
      the constant is one, and as texts otherwise. */
  function Compare(t: Tri, constant: string): int {
    if Numeral(constant).Some? then Sign(t - Numeral(constant).value) else StrCmp(Letter(t), constant)
  }

  /** The value of a boolean or tristate symbol that a constant is equal to, if any. */
  function StandsFor(constant: string): Option<Tri> {
    if constant == "n" then Some(0)
    else if constant == "m" then Some(1)
    else if constant == "y" then Some(2)
    else if Numeral(constant).Some? && 0 <= Numeral(constant).value <= 2 then Some(Numeral(constant).value)
    else None
  }

  lemma {:induction false} StrCmpEqual(a: string, b: string)
    ensures StrCmp(a, b) == 0 <==> a == b
  {
    if a != "" && b != "" && a[0] == b[0] {
      StrCmpEqual(a[1..], b[1..]);
      assert a == [a[0]] + a[1..] && b == [b[0]] + b[1..];
    }
  }

  lemma CompareEqual(t: Tri, constant: string)
    ensures Compare(t, constant) == 0 <==> StandsFor(constant) == Some(t)
  {
    StrCmpEqual(Letter(t), constant);
    NoNumerals();
    hide Numeral, StrCmp;
  }

  lemma NoNumerals()
    ensures Numeral("n") == Numeral("m") == Numeral("y") == None
  {
    assert Digit('n') == Digit('m') == Digit('y') == None;
    assert Digits("n", 10, 0) == Digits("m", 10, 0) == Digits("y", 10, 0) == None;
  }

  /** The constants have their values, a boolean symbol is never m, and a boolean or tristate symbol compares with a
      constant as expr_calc_value does it. */
  ghost predicate Sane(env: Env) {
    && env.tri(YES) == 2 && env.tri(MOD) == 1 && env.tri(NO) == 0
    && (forall s: Symbol :: s.stype.Boolean? ==> env.tri(s) != 1)
    && (forall s: Symbol, c: string :: Logical(s) ==> env.cmp(s, Const(c)) == Compare(env.tri(s), c))
  }

  /** What a comparison for equality with a constant says. */
  lemma ConstantEqual(env: Env, s: Symbol, c: string)
    requires Sane(env) && Logical(s)
    ensures env.cmp(s, Const(c)) == 0 <==> StandsFor(c) == Some(env.tri(s))
  {
    CompareEqual(env.tri(s), c);
  }

  lemma LetterEqual(env: Env, s: Symbol)
    requires Sane(env) && Logical(s)
    ensures env.cmp(s, YES) == 0 <==> env.tri(s) == 2
    ensures env.cmp(s, MOD) == 0 <==> env.tri(s) == 1
    ensures env.cmp(s, NO) == 0 <==> env.tri(s) == 0
  {
    hide Compare, Numeral;
    ConstantEqual(env, s, "y");
    ConstantEqual(env, s, "m");
    ConstantEqual(env, s, "n");
  }

  function Size(e: Expr): nat {
    match e
    case Sym(_) => 1
    case Cmp(_, _, _) => 1
    case Not(x) => 1 + Size(x)
    case Bin(_, l, r) => 1 + Size(l) + Size(r)
  }

  // ---------------------------------------------------------------------------------------------
  // Constants
  // ---------------------------------------------------------------------------------------------

  /** expr_eliminate_yn. */
  function EliminateYn(e: Expr): Expr {
    if !e.Bin? then e
    else
      var l, r := EliminateYn(e.left), EliminateYn(e.right);
      var unit, zero := if e.op.AndOp? then YES else NO, if e.op.AndOp? then NO else YES;
      if l == Sym(zero) then Sym(zero)
      else if l == Sym(unit) then r
      else if r == Sym(zero) then Sym(zero)
      else if r == Sym(unit) then l
      else Bin(e.op, l, r)
  }

  lemma {:induction false} EliminateYnValue(env: Env, e: Expr)
    requires Sane(env)
    ensures Eval(env, EliminateYn(e)) == Eval(env, e)
  {
    if e.Bin? {
      EliminateYnValue(env, e.left);
      EliminateYnValue(env, e.right);
    }
  }

  lemma {:induction false} EliminateYnSize(e: Expr)
    ensures Size(EliminateYn(e)) <= Size(e)
  {
    if e.Bin? {
      EliminateYnSize(e.left);
      EliminateYnSize(e.right);
    }
  }

  // ---------------------------------------------------------------------------------------------
  // Equality
  // ---------------------------------------------------------------------------------------------

  predicate IsOp(op: Op, e: Expr) {
    e.Bin? && e.op == op
  }

  /** expr_eq. Two && or || expressions are equal if removing their common operands leaves the same constant. */
  predicate ExprEq(e1: Expr, e2: Expr)
    decreases Size(e1) + Size(e2), 1
  {
    match e1
    case Sym(_) => e1 == e2
    case Cmp(_, _, _) => e1 == e2
    case Not(x) => e2.Not? && ExprEq(x, e2.e)
    case Bin(op, _, _) =>
      && IsOp(op, e2)
      && var (f1, f2) := EliminateEq(op, e1, e2);
         var g1, g2 := EliminateYn(f1), EliminateYn(f2);
         g1.Sym? && g1 == g2
  }

  /** __expr_eliminate_eq: replaces operands that both expressions have by the unit of the operation. */
  function EliminateEq(op: Op, e1: Expr, e2: Expr): (r: (Expr, Expr))
    ensures Size(r.0) <= Size(e1) && Size(r.1) <= Size(e2)
    decreases Size(e1) + Size(e2), if IsOp(op, e1) || IsOp(op, e2) then 0 else 2
  {
    if IsOp(op, e1) then
      var (l, e2a) := EliminateEq(op, e1.left, e2);
      var (r, e2b) := EliminateEq(op, e1.right, e2a);
      (Bin(op, l, r), e2b)
    else if IsOp(op, e2) then
      var (e1a, l) := EliminateEq(op, e1, e2.left);
      var (e1b, r) := EliminateEq(op, e1a, e2.right);
      (e1b, Bin(op, l, r))
    else if e1 == e2 && (e1 == Sym(YES) || e1 == Sym(NO)) then (e1, e2)
    else if ExprEq(e1, e2) then (Sym(Unit(op)), Sym(Unit(op)))
    else (e1, e2)
  }

  lemma ApplyUnit(op: Op, x: Tri)
    ensures Apply(op, x, if op.AndOp? then 2 else 0) == x
  {
  }

  lemma UnitValue(env: Env, op: Op, v: Tri)
    requires Sane(env)
    ensures Apply(op, Eval(env, Sym(Unit(op))), v) == v
  {
  }

  /** Taking one value out of a row of operands, and then another. */
  lemma TakeTwice(op: Op, l: Tri, r: Tri, e: Tri, v1: Tri, v2: Tri)
    ensures Apply(op, Apply(op, l, v1), Apply(op, r, v2)) == Apply(op, Apply(op, l, r), Apply(op, v1, v2))
    ensures Apply(op, Apply(op, e, v2), v1) == Apply(op, e, Apply(op, v1, v2))
  {
  }

  /** Expressions that compare equal have the same value. */
  lemma {:induction false} ExprEqValue(env: Env, e1: Expr, e2: Expr)
    requires Sane(env) && ExprEq(e1, e2)
    ensures Eval(env, e1) == Eval(env, e2)
    decreases Size(e1) + Size(e2), 1
  {
    match e1
    case Sym(_) =>
    case Cmp(_, _, _) =>
    case Not(x) => ExprEqValue(env, x, e2.e);
    case Bin(op, _, _) =>
      var (f1, f2) := EliminateEq(op, e1, e2);
      var v := EliminateEqValue(env, op, e1, e2);
      EliminateYnValue(env, f1);
      EliminateYnValue(env, f2);
  }

  /** What was removed from both is one value v, the same for both. */
  lemma {:induction false} EliminateEqValue(env: Env, op: Op, e1: Expr, e2: Expr) returns (v: Tri)
    requires Sane(env)
    ensures Eval(env, e1) == Apply(op, Eval(env, EliminateEq(op, e1, e2).0), v)
    ensures Eval(env, e2) == Apply(op, Eval(env, EliminateEq(op, e1, e2).1), v)
    decreases Size(e1) + Size(e2), if IsOp(op, e1) || IsOp(op, e2) then 0 else 2
  {
    hide Apply;
    v := if op.AndOp? then 2 else 0;
    ApplyUnit(op, Eval(env, e1));
    ApplyUnit(op, Eval(env, e2));
    if IsOp(op, e1) {
      var (l, e2a) := EliminateEq(op, e1.left, e2);
      var (r, e2b) := EliminateEq(op, e1.right, e2a);
      var v1 := EliminateEqValue(env, op, e1.left, e2);
      var v2 := EliminateEqValue(env, op, e1.right, e2a);
      v := Apply(op, v1, v2);
      TakeTwice(op, Eval(env, l), Eval(env, r), Eval(env, e2b), v1, v2);
    } else if IsOp(op, e2) {
      var (e1a, l) := EliminateEq(op, e1, e2.left);
      var (e1b, r) := EliminateEq(op, e1a, e2.right);
      var v1 := EliminateEqValue(env, op, e1, e2.left);
      var v2 := EliminateEqValue(env, op, e1a, e2.right);
      v := Apply(op, v1, v2);
      TakeTwice(op, Eval(env, l), Eval(env, r), Eval(env, e1b), v1, v2);
    } else if e1 == e2 && (e1 == Sym(YES) || e1 == Sym(NO)) {
    } else if ExprEq(e1, e2) {
      ExprEqValue(env, e1, e2);
      v := Eval(env, e1);
      UnitValue(env, op, v);
    }
  }

  // ---------------------------------------------------------------------------------------------
  // Negation
  // ---------------------------------------------------------------------------------------------

  /** Weighs a negation by what it will be pushed through. */
  function Weight(e: Expr): (w: nat)
    ensures w >= 1
  {
    match e
    case Sym(_) => 1
    case Cmp(_, _, _) => 4
    case Not(x) => 3 * Weight(x)
    case Bin(_, l, r) => 1 + Weight(l) + Weight(r)
  }

  function Flip(rel: Rel): Rel {
    match rel
    case Eq => Ne
    case Ne => Eq
    case Le => Gt
    case Ge => Lt
    case Lt => Ge
    case Gt => Le
  }

  function Dual(op: Op): Op {
    if op.AndOp? then OrOp else AndOp
  }

  /** What the negation of an operation becomes. */
  function DeMorgan(op: Op, a: Expr, b: Expr): Expr {
    Bin(Dual(op), Not(a), Not(b))
  }

  lemma DeMorganWeight(op: Op, a: Expr, b: Expr)
    ensures Weight(DeMorgan(op, a, b)) < 3 * Weight(Bin(op, a, b))
  {
    assert Weight(Not(a)) == 3 * Weight(a) && Weight(Not(b)) == 3 * Weight(b);
  }

  lemma DeMorganValue(env: Env, op: Op, a: Expr, b: Expr)
    ensures Eval(env, DeMorgan(op, a, b)) == 2 - Eval(env, Bin(op, a, b))
  {
    assert Eval(env, Not(a)) == 2 - Eval(env, a) && Eval(env, Not(b)) == 2 - Eval(env, b);
  }

  lemma TransformCmpValue(env: Env, e: Expr)
    requires Sane(env) && e.Cmp?
    ensures Eval(env, TransformCmp(e)) == Eval(env, e)
  {
    hide Compare;
    if e.l.stype.Boolean? {
      LetterEqual(env, e.l);
    }
  }

  /** A comparison of a boolean symbol with a constant becomes the symbol, its negation or a constant. */
  function TransformCmp(e: Expr): Expr
    requires e.Cmp?
  {
    if !e.l.stype.Boolean? then e
    else if e.rel.Eq? then
      if e.r == NO then Not(Sym(e.l)) else if e.r == MOD then Sym(NO) else if e.r == YES then Sym(e.l) else e
    else if e.rel.Ne? then
      if e.r == NO then Sym(e.l) else if e.r == MOD then Sym(YES) else if e.r == YES then Not(Sym(e.l)) else e
    else e
  }

  /** expr_transform. */
  function Transform(e: Expr): (r: Expr)
    ensures Weight(r) <= Weight(e)
    decreases Weight(e)
  {
    match e
    case Sym(_) => e
    case Cmp(_, _, _) => TransformCmp(e)
    case Bin(op, l, r) => Bin(op, Transform(l), Transform(r))
    case Not(x) =>
      var y := Transform(x);
      match y {
        case Not(z) => Transform(z)
        case Cmp(rel, l, r) => Cmp(Flip(rel), l, r)
        case Bin(op, a, b) => DeMorganWeight(op, a, b); Transform(DeMorgan(op, a, b))
        case Sym(s) =>
          if s == YES then Sym(NO) else if s == MOD then Sym(MOD) else if s == NO then Sym(YES) else Not(y)
      }
  }

  lemma {:induction false} TransformValue(env: Env, e: Expr)
    requires Sane(env)
    ensures Eval(env, Transform(e)) == Eval(env, e)
    decreases Weight(e)
  {
    hide DeMorgan, TransformCmp, Apply;
    match e
    case Sym(_) =>
    case Cmp(_, _, _) => TransformCmpValue(env, e);
    case Bin(op, l, r) =>
      TransformValue(env, l);
      TransformValue(env, r);
    case Not(x) =>
      TransformValue(env, x);
      var y := Transform(x);
      match y {
        case Not(z) => TransformValue(env, z);
        case Cmp(rel, l, r) =>
        case Bin(op, a, b) =>
          DeMorganWeight(op, a, b);
          DeMorganValue(env, op, a, b);
          TransformValue(env, DeMorgan(op, a, b));
        case Sym(s) =>
      }
  }

  /** Negation stands only before symbols that are not constants. */
  predicate NegationNormal(e: Expr) {
    match e
    case Sym(_) => true
    case Cmp(_, _, _) => true
    case Not(x) => x.Sym? && x.s != YES && x.s != MOD && x.s != NO
    case Bin(_, l, r) => NegationNormal(l) && NegationNormal(r)
  }

  lemma {:induction false} TransformNormal(e: Expr)
    ensures NegationNormal(Transform(e))
    decreases Weight(e)
  {
    match e
    case Sym(_) =>
    case Cmp(_, _, _) =>
    case Bin(op, l, r) =>
      TransformNormal(l);
      TransformNormal(r);
    case Not(x) =>
      TransformNormal(x);
      var y := Transform(x);
      match y {
        case Not(z) => TransformNormal(z);
        case Cmp(rel, l, r) =>
        case Bin(op, a, b) =>
          DeMorganWeight(op, a, b);
          TransformNormal(DeMorgan(op, a, b));
        case Sym(s) =>
      }
  }

  // ---------------------------------------------------------------------------------------------
  // Joining two operands
  // ---------------------------------------------------------------------------------------------

  predicate IsCmp(e: Expr, rel: Rel) {
    e.Cmp? && e.rel == rel
  }

  /** The symbol that a simple operand is about. A negated comparison is accepted on the left only. */
  function Subject(e: Expr, left: bool): Option<Symbol> {
    match e
    case Sym(s) => Some(s)
    case Cmp(rel, l, _) => if rel.Eq? || rel.Ne? then Some(l) else None
    case Not(x) =>
      if x.Sym? then Some(x.s)
      else if left && x.Cmp? && (x.rel.Eq? || x.rel.Ne?) then Some(x.l)
      else None
    case Bin(_, _, _) => None
  }

  /** Both are comparisons `rel`, one with b and the other with c. */
  predicate Both(e1: Expr, e2: Expr, rel: Rel, b: Symbol, c: Symbol) {
    IsCmp(e1, rel) && IsCmp(e2, rel) && ((e1.r == b && e2.r == c) || (e1.r == c && e2.r == b))
  }

  /** One is a symbol and the other a comparison `rel` with b. */
  predicate SymAnd(e1: Expr, e2: Expr, rel: Rel, b: Symbol) {
    (e1.Sym? && IsCmp(e2, rel) && e2.r == b) || (e2.Sym? && IsCmp(e1, rel) && e1.r == b)
  }

  /** expr_join_or. */
  function JoinOr(e1: Expr, e2: Expr): Option<Expr> {
    if ExprEq(e1, e2) then Some(e1)
    else
      var s1, s2 := Subject(e1, true), Subject(e2, false);
      if s1.None? || s2.None? || s1 != s2 || !Logical(s1.value) then None
      else
        var a := s1.value;
        if a.stype.Tristate? && Both(e1, e2, Eq, YES, MOD) then Some(Cmp(Ne, a, NO))
        else if a.stype.Tristate? && Both(e1, e2, Eq, YES, NO) then Some(Cmp(Ne, a, MOD))
        else if a.stype.Tristate? && Both(e1, e2, Eq, MOD, NO) then Some(Cmp(Ne, a, YES))
        else if a.stype.Boolean? &&
                ((e1.Not? && e1.e.Sym? && e2.Sym?) || (e2.Not? && e2.e.Sym? && e1.Sym?)) then Some(Sym(YES))
        else None
  }

  /** expr_join_and. */
  function JoinAnd(e1: Expr, e2: Expr): Option<Expr> {
    if ExprEq(e1, e2) then Some(e1)
    else
      var s1, s2 := Subject(e1, true), Subject(e2, false);
      if s1.None? || s2.None? || s1 != s2 || !Logical(s1.value) then None
      else
        var a := s1.value;
        if SymAnd(e1, e2, Eq, YES) then Some(Cmp(Eq, a, YES))
        else if SymAnd(e1, e2, Ne, NO) then Some(Sym(a))
        else if SymAnd(e1, e2, Ne, MOD) then Some(Cmp(Eq, a, YES))
        else if !a.stype.Tristate? then None
        else if IsCmp(e1, Eq) && IsCmp(e2, Ne) && e1.r.isConst && e2.r.isConst then
          Some(if e1.r != e2.r then Cmp(Eq, a, e1.r) else Sym(NO))
        else if IsCmp(e1, Ne) && IsCmp(e2, Eq) && e1.r.isConst && e2.r.isConst then
          Some(if e2.r != e1.r then Cmp(Eq, a, e2.r) else Sym(NO))
        else if Both(e1, e2, Ne, YES, NO) then Some(Cmp(Eq, a, MOD))
        else if Both(e1, e2, Ne, YES, MOD) then Some(Cmp(Eq, a, NO))
        else if Both(e1, e2, Ne, MOD, NO) then Some(Cmp(Eq, a, YES))
        else None
  }

  function Join(op: Op, e1: Expr, e2: Expr): Option<Expr> {
    if op.OrOp? then JoinOr(e1, e2) else JoinAnd(e1, e2)
  }

  /** A join has the value of the two operands it stands for, and is smaller than both together. */
  lemma JoinOrValue(env: Env, e1: Expr, e2: Expr)
    requires Sane(env) && JoinOr(e1, e2).Some?
    ensures Eval(env, JoinOr(e1, e2).value) == Apply(OrOp, Eval(env, e1), Eval(env, e2))
  {
    hide ExprEq, Compare;
    if ExprEq(e1, e2) {
      ExprEqValue(env, e1, e2);
    } else {
      var a := Subject(e1, true).value;
      LetterEqual(env, a);
      assert env.tri(a) == 0 || env.tri(a) == 1 || env.tri(a) == 2;
      hide Sane;
    }
  }

  /** Two different constants that a boolean or tristate symbol can be equal to at once. */
  predicate Clash(b: Symbol, c: Symbol) {
    b.isConst && c.isConst && b != c && StandsFor(b.name).Some? && StandsFor(b.name) == StandsFor(c.name)
  }

  lemma JoinAndValue(env: Env, e1: Expr, e2: Expr)
    requires Sane(env) && JoinAnd(e1, e2).Some? && !(e1.Cmp? && e2.Cmp? && Clash(e1.r, e2.r))
    ensures Eval(env, JoinAnd(e1, e2).value) == Apply(AndOp, Eval(env, e1), Eval(env, e2))
  {
    if ExprEq(e1, e2) {
      ExprEqValue(env, e1, e2);
    } else if e1.Cmp? && e2.Cmp? {
      JoinTwo(env, e1, e2);
    } else {
      JoinOne(env, e1, e2);
    }
  }

  /** A symbol and a comparison of it. */
  lemma JoinOne(env: Env, e1: Expr, e2: Expr)
    requires Sane(env) && JoinAnd(e1, e2).Some? && !ExprEq(e1, e2) && !(e1.Cmp? && e2.Cmp?)
    ensures Eval(env, JoinAnd(e1, e2).value) == Apply(AndOp, Eval(env, e1), Eval(env, e2))
  {
    hide ExprEq, Sane;
    var a := Subject(e1, true).value;
    LetterEqual(env, a);
    BasicValues(env);
    assert env.tri(a) == 0 || env.tri(a) == 1 || env.tri(a) == 2;
  }

  /** Two comparisons of one symbol. */
  lemma JoinTwo(env: Env, e1: Expr, e2: Expr)
    requires Sane(env) && JoinAnd(e1, e2).Some? && !ExprEq(e1, e2) && e1.Cmp? && e2.Cmp? && !Clash(e1.r, e2.r)
    ensures Eval(env, JoinAnd(e1, e2).value) == Apply(AndOp, Eval(env, e1), Eval(env, e2))
  {
    hide ExprEq, Sane, Clash;
    var a := Subject(e1, true).value;
    LetterEqual(env, a);
    BasicValues(env);
    if e1.r.isConst && e2.r.isConst {
      ApartConstants(env, a, e1.r, e2.r);
    }
  }

  lemma BasicValues(env: Env)
    requires Sane(env)
    ensures env.tri(YES) == 2 && env.tri(MOD) == 1 && env.tri(NO) == 0
  {
  }

  /** A symbol is not equal to two constants that do not clash. */
  lemma ApartConstants(env: Env, a: Symbol, b: Symbol, c: Symbol)
    requires Sane(env) && Logical(a) && b.isConst && c.isConst && !Clash(b, c)
    ensures b != c ==> env.cmp(a, b) != 0 || env.cmp(a, c) != 0
  {
    hide StandsFor, Compare;
    assert b == Const(b.name) && c == Const(c.name);
    ConstantEqual(env, a, b.name);
    ConstantEqual(env, a, c.name);
  }

  lemma JoinSize(op: Op, e1: Expr, e2: Expr)
    requires Join(op, e1, e2).Some?
    ensures Size(Join(op, e1, e2).value) + 1 <= Size(e1) + Size(e2)
    ensures !IsOp(op, e1) ==> !IsOp(op, Join(op, e1, e2).value)
  {
    hide ExprEq;
    assert Size(e1) >= 1 && Size(e2) >= 1;
  }

  /** The valuation in which every boolean or tristate symbol is worth v. */
  function AllWorth(v: Tri): Env
  {
    Env((s: Symbol) => if s == YES then 2 else if s == MOD then 1 else if s == NO then 0
                       else if s.stype.Boolean? && v == 1 then 2 else v,
        (s: Symbol, c: Symbol) =>
          if Logical(s) && c.Const? then Compare(if s.stype.Boolean? && v == 1 then 2 else v, c.name) else 0)
  }

  lemma AllWorthSane(v: Tri)
    ensures Sane(AllWorth(v)) && forall a: Symbol :: a.stype.Tristate? ==> AllWorth(v).tri(a) == v
  {
    hide Compare;
  }

  /** The rule (a='b') && (a!='c') -> (a='b') keeps the value under every valuation if and only if the two constants do
      not stand for the same value. */
  lemma ConstantRule(a: Symbol, b: Symbol, c: Symbol)
    requires a.stype.Tristate? && b.isConst && c.isConst && b != c
    ensures JoinAnd(Cmp(Eq, a, b), Cmp(Ne, a, c)) == Some(Cmp(Eq, a, b))
    ensures (forall env: Env :: Sane(env) ==> RuleHolds(env, a, b, c)) <==> !Clash(b, c)
  {
    hide StandsFor, Compare, RuleHolds;
    if Clash(b, c) {
      var env := AllWorth(StandsFor(b.name).value);
      AllWorthSane(StandsFor(b.name).value);
      RuleIff(env, a, b, c);
    } else {
      forall env: Env | Sane(env)
        ensures RuleHolds(env, a, b, c)
      {
        RuleIff(env, a, b, c);
      }
    }
  }

  ghost predicate RuleHolds(env: Env, a: Symbol, b: Symbol, c: Symbol) {
    Eval(env, Cmp(Eq, a, b)) == Eval(env, Bin(AndOp, Cmp(Eq, a, b), Cmp(Ne, a, c)))
  }

  /** Under one valuation: unless the constants clash and the symbol is worth what they stand for. */
  lemma RuleIff(env: Env, a: Symbol, b: Symbol, c: Symbol)
    requires Sane(env) && a.stype.Tristate? && b.isConst && c.isConst && b != c
    ensures RuleHolds(env, a, b, c) <==> !(Clash(b, c) && StandsFor(b.name) == Some(env.tri(a)))
  {
    hide StandsFor, Compare;
    assert b == Const(b.name) && c == Const(c.name);
    ConstantEqual(env, a, b.name);
    ConstantEqual(env, a, c.name);
    assert Eval(env, Cmp(Eq, a, b)) == if env.cmp(a, b) == 0 then 2 else 0;
    assert Eval(env, Cmp(Ne, a, c)) == if env.cmp(a, c) == 0 then 0 else 2;
  }

  /** The rule !a || a -> y is right exactly when a is not m. */
  lemma ExcludedMiddle(env: Env, a: Symbol)
    requires a.stype.Boolean? && env.tri(YES) == 2
    ensures JoinOr(Not(Sym(a)), Sym(a)) == Some(Sym(YES))
    ensures Eval(env, Sym(YES)) == Eval(env, Bin(OrOp, Not(Sym(a)), Sym(a))) <==> env.tri(a) != 1
  {
    assert Eval(env, Not(Sym(a))) == 2 - env.tri(a);
  }

  // ---------------------------------------------------------------------------------------------
  // The constants of an expression
  // ---------------------------------------------------------------------------------------------

  /** The constants that symbols are compared with. */
  function Consts(e: Expr): set<Symbol> {
    match e
    case Sym(_) => {}
    case Cmp(_, _, r) => if r.isConst then {r} else {}
    case Not(x) => Consts(x)
    case Bin(_, l, r) => Consts(l) + Consts(r)
  }

  const BASIC: set<Symbol> := {YES, MOD, NO}

  /** No two of the constants stand for the same value. */
  ghost predicate Apart(k: set<Symbol>) {
    BASIC <= k && forall b: Symbol, c: Symbol :: b in k && c in k ==> !Clash(b, c)
  }

  /** What a caller can check: no two of y, m, n and the constants in the expression stand for the same value. */
  ghost predicate Plain(e: Expr) {
    Apart(Consts(e) + BASIC)
  }

  lemma {:induction false} EliminateYnConsts(e: Expr)
    ensures Consts(EliminateYn(e)) <= Consts(e)
  {
    if e.Bin? {
      EliminateYnConsts(e.left);
      EliminateYnConsts(e.right);
    }
  }

  lemma JoinConsts(op: Op, e1: Expr, e2: Expr)
    requires Join(op, e1, e2).Some?
    ensures Consts(Join(op, e1, e2).value) <= Consts(e1) + Consts(e2) + BASIC
  {
    hide ExprEq;
  }

  /** The constants of a row of operands are among k. */
  ghost predicate Within(a: seq<Expr>, k: set<Symbol>) {
    forall i: nat :: i < |a| ==> Consts(a[i]) <= k
  }

  lemma {:induction false} OperandsWithin(op: Op, e: Expr, k: set<Symbol>)
    requires Consts(e) <= k
    ensures Within(Operands(op, e), k)
  {
    if IsOp(op, e) {
      OperandsWithin(op, e.left, k);
      OperandsWithin(op, e.right, k);
    }
  }

  lemma {:induction false} RebuildWithin(op: Op, e: Expr, a: seq<Expr>, k: set<Symbol>)
    requires |a| == Count(op, e) && Within(a, k)
    ensures Consts(Rebuild(op, e, a)) <= k
  {
    if IsOp(op, e) {
      var n := Count(op, e.left);
      RebuildWithin(op, e.left, a[..n], k);
      RebuildWithin(op, e.right, a[n..], k);
    }
  }

  // ---------------------------------------------------------------------------------------------
  // Duplicate operands
  // ---------------------------------------------------------------------------------------------

  /** The operands of an expression at one level of && or ||, from left to right. */
  function Operands(op: Op, e: Expr): (a: seq<Expr>)
    ensures |a| == Count(op, e)
    ensures forall k :: 0 <= k < |a| ==> !IsOp(op, a[k])
  {
    if IsOp(op, e) then Operands(op, e.left) + Operands(op, e.right) else [e]
  }

  function Count(op: Op, e: Expr): (n: nat)
    ensures n >= 1 && (IsOp(op, e) ==> n >= 2)
  {
    if IsOp(op, e) then Count(op, e.left) + Count(op, e.right) else 1
  }

  /** The expression with other operands at that level. */
  function Rebuild(op: Op, e: Expr, a: seq<Expr>): Expr
    requires |a| == Count(op, e)
  {
    if IsOp(op, e) then
      var n := Count(op, e.left);
      Bin(op, Rebuild(op, e.left, a[..n]), Rebuild(op, e.right, a[n..]))
    else a[0]
  }

  function Sum(a: seq<Expr>): nat {
    if a == [] then 0 else Size(a[0]) + Sum(a[1..])
  }

  lemma {:induction false} SumSet(a: seq<Expr>, i: nat, x: Expr)
    requires i < |a|
    ensures Size(a[i]) <= Sum(a) && Sum(a[i := x]) == Sum(a) - Size(a[i]) + Size(x)
  {
    if i > 0 {
      SumSet(a[1..], i - 1, x);
      assert a[i := x][1..] == a[1..][i - 1 := x];
    }
  }

  lemma {:induction false} SumAppend(a: seq<Expr>, b: seq<Expr>)
    ensures Sum(a + b) == Sum(a) + Sum(b)
  {
    if a == [] {
      assert a + b == b;
    } else {
      SumAppend(a[1..], b);
      assert (a + b)[1..] == a[1..] + b;
    }
  }

  lemma {:induction false} RebuildSize(op: Op, e: Expr, a: seq<Expr>)
    requires |a| == Count(op, e)
    ensures Size(Rebuild(op, e, a)) == Sum(a) + Count(op, e) - 1
  {
    if IsOp(op, e) {
      var n := Count(op, e.left);
      RebuildSize(op, e.left, a[..n]);
      RebuildSize(op, e.right, a[n..]);
      SumAppend(a[..n], a[n..]);
      assert a == a[..n] + a[n..];
    } else {
      assert a[1..] == [];
    }
  }

  lemma {:induction false} RebuildSame(op: Op, e: Expr)
    ensures Rebuild(op, e, Operands(op, e)) == e
  {
    if IsOp(op, e) {
      RebuildSame(op, e.left);
      RebuildSame(op, e.right);
      var a, n := Operands(op, e), Count(op, e.left);
      assert a[..n] == Operands(op, e.left) && a[n..] == Operands(op, e.right);
    } else {
      assert Operands(op, e)[0] == e;
    }
  }

  lemma OperandsSize(op: Op, e: Expr)
    ensures Size(e) == Sum(Operands(op, e)) + Count(op, e) - 1
  {
    RebuildSize(op, e, Operands(op, e));
    RebuildSame(op, e);
  }

  /** expr_eliminate_dups1 called with one expression twice, and how many joins it made. */
  function Dups(e: Expr): (r: (Expr, nat))
    requires e.Bin?
    ensures IsOp(e.op, r.0) && Size(r.0) <= Size(e)
    decreases Size(e), 3 * Size(e)
  {
    var a := Operands(e.op, e);
    OperandsSize(e.op, e);
    var (b, n) := Walk(e.op, e, 0, e, 0, a, Size(e));
    RebuildSize(e.op, e, b);
    (Rebuild(e.op, e, b), n)
  }

  /** expr_eliminate_dups1: the walk over two trees s1 and s2 of one level. The operands of s1 are those of `a` from i
      on, the operands of s2 those from j on; where both are operands, they are the slots that the two pointers of the
      source point to. No step changes the shape of the level. */
  function Walk(op: Op, s1: Expr, i: nat, s2: Expr, j: nat, a: seq<Expr>, ghost h: nat): (r: (seq<Expr>, nat))
    requires i + Count(op, s1) <= |a| && j + Count(op, s2) <= |a| && Sum(a) < h
    requires forall k :: 0 <= k < |a| ==> !IsOp(op, a[k])
    ensures |r.0| == |a| && Sum(r.0) <= Sum(a)
    ensures forall k :: 0 <= k < |a| ==> !IsOp(op, r.0[k])
    decreases h, Size(s1) + Size(s2)
  {
    if IsOp(op, s1) then
      var (b, m) := Walk(op, s1.left, i, s2, j, a, h);
      var (c, n) := Walk(op, s1.right, i + Count(op, s1.left), s2, j, b, h);
      (c, m + n)
    else if IsOp(op, s2) then
      var (b, m) := Walk(op, s1, i, s2.left, j, a, h);
      var (c, n) := Walk(op, s1, i, s2.right, j + Count(op, s2.left), b, h);
      (c, m + n)
    else if i == j then (a, 0)
    else Pair(op, i, j, a, h)
  }

  /** Two different operands: simplify the first one, then try to join the two. */
  function Pair(op: Op, i: nat, j: nat, a: seq<Expr>, ghost h: nat): (r: (seq<Expr>, nat))
    requires i < |a| && j < |a| && i != j && Sum(a) < h
    requires forall k :: 0 <= k < |a| ==> !IsOp(op, a[k])
    ensures |r.0| == |a| && Sum(r.0) <= Sum(a)
    ensures forall k :: 0 <= k < |a| ==> !IsOp(op, r.0[k])
    decreases h, 0
  {
    SumSet(a, i, a[i]);
    var (x, m) := if a[i].Bin? then Dups(a[i]) else (a[i], 0);
    SumSet(a, i, x);
    var b := a[i := x];
    var t := Join(op, b[i], b[j]);
    if t.None? then (b, m)
    else
      JoinSize(op, b[i], b[j]);
      SumSet(b, i, Sym(Unit(op)));
      var c := b[i := Sym(Unit(op))];
      SumSet(c, j, t.value);
      (c[j := t.value], m + 1)
  }

  // ---------------------------------------------------------------------------------------------
  // The walk keeps the value
  // ---------------------------------------------------------------------------------------------

  /** The value of a row of operands. */
  function Fold(env: Env, op: Op, a: seq<Expr>): Tri {
    if a == [] then (if op.AndOp? then 2 else 0) else Apply(op, Eval(env, a[0]), Fold(env, op, a[1..]))
  }

  function Drop(a: seq<Expr>, i: nat): seq<Expr>
    requires i < |a|
  {
    a[..i] + a[i + 1..]
  }

  lemma ApplySwap(op: Op, x: Tri, y: Tri, z: Tri)
    ensures Apply(op, x, Apply(op, y, z)) == Apply(op, y, Apply(op, x, z))
    ensures Apply(op, x, Apply(op, y, z)) == Apply(op, Apply(op, x, y), z)
  {
  }

  lemma {:induction false} FoldDrop(env: Env, op: Op, a: seq<Expr>, i: nat)
    requires i < |a|
    ensures Fold(env, op, a) == Apply(op, Eval(env, a[i]), Fold(env, op, Drop(a, i)))
  {
    if i == 0 {
      assert Drop(a, 0) == a[1..];
    } else {
      FoldDrop(env, op, a[1..], i - 1);
      assert Drop(a, i)[1..] == Drop(a[1..], i - 1) && Drop(a, i)[0] == a[0];
      ApplySwap(op, Eval(env, a[0]), Eval(env, a[i]), Fold(env, op, Drop(a[1..], i - 1)));
    }
  }

  lemma FoldSet(env: Env, op: Op, a: seq<Expr>, i: nat, x: Expr)
    requires i < |a| && Eval(env, x) == Eval(env, a[i])
    ensures Fold(env, op, a[i := x]) == Fold(env, op, a)
  {
    FoldDrop(env, op, a, i);
    FoldDrop(env, op, a[i := x], i);
    assert Drop(a[i := x], i) == Drop(a, i);
  }

  lemma DropAt(a: seq<Expr>, i: nat)
    requires i < |a|
    ensures |Drop(a, i)| == |a| - 1
    ensures forall m :: 0 <= m < |a| - 1 ==> Drop(a, i)[m] == a[if m < i then m else m + 1]
  {
  }

  lemma DropTwo(a: seq<Expr>, i: nat, j: nat, x: Expr, y: Expr)
    requires i < |a| && j < |a| && i != j
    ensures var b, k := a[i := x][j := y], if j < i then j else j - 1;
      && k < |Drop(a, i)| == |Drop(b, i)| && Drop(a, i)[k] == a[j] && Drop(b, i)[k] == y && b[i] == x
      && Drop(Drop(a, i), k) == Drop(Drop(b, i), k)
  {
    var b, k := a[i := x][j := y], if j < i then j else j - 1;
    DropAt(a, i);
    DropAt(b, i);
    DropAt(Drop(a, i), k);
    DropAt(Drop(b, i), k);
    hide Drop;
    assert Drop(Drop(a, i), k) == Drop(Drop(b, i), k);
  }

  /** Two operands may be replaced by two others with the same value together. */
  lemma FoldTwo(env: Env, op: Op, a: seq<Expr>, i: nat, j: nat, x: Expr, y: Expr)
    requires i < |a| && j < |a| && i != j
    requires Apply(op, Eval(env, x), Eval(env, y)) == Apply(op, Eval(env, a[i]), Eval(env, a[j]))
    ensures Fold(env, op, a[i := x][j := y]) == Fold(env, op, a)
  {
    hide Fold, Apply, Eval;
    var b := a[i := x][j := y];
    var k := if j < i then j else j - 1;
    FoldDrop(env, op, a, i);
    FoldDrop(env, op, b, i);
    FoldDrop(env, op, Drop(a, i), k);
    FoldDrop(env, op, Drop(b, i), k);
    DropTwo(a, i, j, x, y);
    hide Drop;
    var rest := Fold(env, op, Drop(Drop(a, i), k));
    ApplySwap(op, Eval(env, a[i]), Eval(env, a[j]), rest);
    ApplySwap(op, Eval(env, x), Eval(env, y), rest);
  }

  lemma {:induction false} FoldAppend(env: Env, op: Op, a: seq<Expr>, b: seq<Expr>)
    ensures Fold(env, op, a + b) == Apply(op, Fold(env, op, a), Fold(env, op, b))
  {
    if a == [] {
      assert a + b == b;
    } else {
      FoldAppend(env, op, a[1..], b);
      assert (a + b)[1..] == a[1..] + b;
      ApplySwap(op, Eval(env, a[0]), Fold(env, op, a[1..]), Fold(env, op, b));
    }
  }

  lemma {:induction false} RebuildValue(env: Env, op: Op, e: Expr, a: seq<Expr>)
    requires |a| == Count(op, e)
    ensures Eval(env, Rebuild(op, e, a)) == Fold(env, op, a)
  {
    if IsOp(op, e) {
      var n := Count(op, e.left);
      RebuildValue(env, op, e.left, a[..n]);
      RebuildValue(env, op, e.right, a[n..]);
      FoldAppend(env, op, a[..n], a[n..]);
      assert a == a[..n] + a[n..];
    } else {
      assert a[1..] == [];
    }
  }

  /** A pass keeps the value if the constants are among k, in which no two stand for the same value, and brings in no
      constant from outside. */
  lemma {:induction false} DupsValue(env: Env, e: Expr, k: set<Symbol>)
    requires Sane(env) && e.Bin? && Apart(k) && Consts(e) <= k
    ensures Eval(env, Dups(e).0) == Eval(env, e) && Consts(Dups(e).0) <= k
    decreases Size(e), 3 * Size(e)
  {
    hide Sane, Apart, Consts, Within;
    var a := Operands(e.op, e);
    OperandsSize(e.op, e);
    var (b, n) := Walk(e.op, e, 0, e, 0, a, Size(e));
    OperandsWithin(e.op, e, k);
    WalkValue(env, e.op, e, 0, e, 0, a, Size(e), k);
    RebuildValue(env, e.op, e, b);
    RebuildValue(env, e.op, e, a);
    RebuildSame(e.op, e);
    RebuildWithin(e.op, e, b, k);
  }

  lemma {:induction false} WalkValue(env: Env, op: Op, s1: Expr, i: nat, s2: Expr, j: nat, a: seq<Expr>, h: nat,
                                     k: set<Symbol>)
    requires Sane(env) && i + Count(op, s1) <= |a| && j + Count(op, s2) <= |a| && Sum(a) < h
    requires forall x :: 0 <= x < |a| ==> !IsOp(op, a[x])
    requires Apart(k) && Within(a, k)
    ensures Fold(env, op, Walk(op, s1, i, s2, j, a, h).0) == Fold(env, op, a)
    ensures Within(Walk(op, s1, i, s2, j, a, h).0, k)
    decreases h, Size(s1) + Size(s2)
  {
    hide Fold, Eval, Apply, Pair, Sane, Apart, Within, Sum;
    if IsOp(op, s1) {
      var (b, m) := Walk(op, s1.left, i, s2, j, a, h);
      WalkValue(env, op, s1.left, i, s2, j, a, h, k);
      WalkValue(env, op, s1.right, i + Count(op, s1.left), s2, j, b, h, k);
    } else if IsOp(op, s2) {
      var (b, m) := Walk(op, s1, i, s2.left, j, a, h);
      WalkValue(env, op, s1, i, s2.left, j, a, h, k);
      WalkValue(env, op, s1, i, s2.right, j + Count(op, s2.left), b, h, k);
    } else if i != j {
      PairValue(env, op, i, j, a, h, k);
    }
  }

  lemma {:induction false} PairValue(env: Env, op: Op, i: nat, j: nat, a: seq<Expr>, h: nat, k: set<Symbol>)
    requires Sane(env) && i < |a| && j < |a| && i != j && Sum(a) < h
    requires forall x :: 0 <= x < |a| ==> !IsOp(op, a[x])
    requires Apart(k) && Within(a, k)
    ensures Fold(env, op, Pair(op, i, j, a, h).0) == Fold(env, op, a) && Within(Pair(op, i, j, a, h).0, k)
    decreases h, 0
  {
    hide Fold, Apply, Eval, Join, Dups, Sane, Consts, Apart;
    SumSet(a, i, a[i]);
    var (x, m) := if a[i].Bin? then Dups(a[i]) else (a[i], 0);
    if a[i].Bin? { DupsValue(env, a[i], k); }
    var b := a[i := x];
    FoldSet(env, op, a, i, x);
    var t := Join(op, b[i], b[j]);
    if t.Some? {
      JoinValue(env, op, b[i], b[j], k);
      FoldTwo(env, op, b, i, j, Sym(Unit(op)), t.value);
    }
  }

  lemma JoinValue(env: Env, op: Op, e1: Expr, e2: Expr, k: set<Symbol>)
    requires Sane(env) && Join(op, e1, e2).Some? && Apart(k) && Consts(e1) <= k && Consts(e2) <= k
    ensures Apply(op, Eval(env, Sym(Unit(op))), Eval(env, Join(op, e1, e2).value))
         == Apply(op, Eval(env, e1), Eval(env, e2))
    ensures Consts(Sym(Unit(op))) <= k && Consts(Join(op, e1, e2).value) <= k
  {
    hide JoinOr, JoinAnd, Sane, Clash;
    UnitValue(env, op, Eval(env, Join(op, e1, e2).value));
    JoinConsts(op, e1, e2);
    if op.OrOp? {
      JoinOrValue(env, e1, e2);
    } else {
      NoClash(e1, e2, k);
      JoinAndValue(env, e1, e2);
    }
  }

  lemma NoClash(e1: Expr, e2: Expr, k: set<Symbol>)
    requires Apart(k) && Consts(e1) <= k && Consts(e2) <= k
    ensures !(e1.Cmp? && e2.Cmp? && Clash(e1.r, e2.r))
  {
    hide StandsFor;
  }

  // ---------------------------------------------------------------------------------------------
  // The loop ends
  // ---------------------------------------------------------------------------------------------

  /** Some operation in the expression has its unit as an operand, so that eliminating constants makes it smaller. */
  predicate Slack(e: Expr) {
    e.Bin? && (e.left == Sym(Unit(e.op)) || e.right == Sym(Unit(e.op)) || Slack(e.left) || Slack(e.right))
  }

  lemma {:induction false} SlackShrinks(e: Expr)
    requires Slack(e)
    ensures Size(EliminateYn(e)) < Size(e)
  {
    EliminateYnSize(e.left);
    EliminateYnSize(e.right);
    if Slack(e.left) { SlackShrinks(e.left); }
    if Slack(e.right) { SlackShrinks(e.right); }
  }

  predicate SlackAt(op: Op, x: Expr) {
    x == Sym(Unit(op)) || Slack(x)
  }

  predicate SlackIn(op: Op, a: seq<Expr>) {
    exists k :: 0 <= k < |a| && SlackAt(op, a[k])
  }

  lemma {:induction false} RebuildSlack(op: Op, e: Expr, a: seq<Expr>, k: nat)
    requires |a| == Count(op, e) && k < |a| && SlackAt(op, a[k])
    ensures SlackAt(op, Rebuild(op, e, a))
  {
    if IsOp(op, e) {
      var n := Count(op, e.left);
      if k < n {
        RebuildSlack(op, e.left, a[..n], k);
      } else {
        RebuildSlack(op, e.right, a[n..], k - n);
      }
    }
  }

  /** A walk without a join changes nothing, and a walk with one leaves slack. */
  lemma {:induction false} DupsProgress(e: Expr)
    requires e.Bin?
    ensures Dups(e).1 == 0 ==> Dups(e).0 == e
    ensures Dups(e).1 > 0 ==> Slack(Dups(e).0)
    decreases Size(e), 3 * Size(e)
  {
    var a := Operands(e.op, e);
    OperandsSize(e.op, e);
    var (b, n) := Walk(e.op, e, 0, e, 0, a, Size(e));
    WalkProgress(e.op, e, 0, e, 0, a, Size(e));
    if n == 0 {
      RebuildSame(e.op, e);
    } else {
      var k :| 0 <= k < |b| && SlackAt(e.op, b[k]);
      RebuildSlack(e.op, e, b, k);
    }
  }

  lemma {:induction false} WalkProgress(op: Op, s1: Expr, i: nat, s2: Expr, j: nat, a: seq<Expr>, h: nat)
    requires i + Count(op, s1) <= |a| && j + Count(op, s2) <= |a| && Sum(a) < h
    requires forall k :: 0 <= k < |a| ==> !IsOp(op, a[k])
    ensures var r := Walk(op, s1, i, s2, j, a, h); (r.1 == 0 ==> r.0 == a) && (r.1 > 0 ==> SlackIn(op, r.0))
    decreases h, Size(s1) + Size(s2)
  {
    hide Pair, SlackIn, Sum;
    if IsOp(op, s1) {
      var (b, m) := Walk(op, s1.left, i, s2, j, a, h);
      WalkProgress(op, s1.left, i, s2, j, a, h);
      WalkProgress(op, s1.right, i + Count(op, s1.left), s2, j, b, h);
    } else if IsOp(op, s2) {
      var (b, m) := Walk(op, s1, i, s2.left, j, a, h);
      WalkProgress(op, s1, i, s2.left, j, a, h);
      WalkProgress(op, s1, i, s2.right, j + Count(op, s2.left), b, h);
    } else if i != j {
      PairProgress(op, i, j, a, h);
    }
  }

  lemma {:induction false} PairProgress(op: Op, i: nat, j: nat, a: seq<Expr>, h: nat)
    requires i < |a| && j < |a| && i != j && Sum(a) < h
    requires forall k :: 0 <= k < |a| ==> !IsOp(op, a[k])
    ensures var r := Pair(op, i, j, a, h); (r.1 == 0 ==> r.0 == a) && (r.1 > 0 ==> SlackIn(op, r.0))
    decreases h, 0
  {
    hide Join, Dups, Slack;
    SumSet(a, i, a[i]);
    var (x, m) := if a[i].Bin? then Dups(a[i]) else (a[i], 0);
    if a[i].Bin? { DupsProgress(a[i]); }
    var r := Pair(op, i, j, a, h);
    assert r.1 > 0 ==> SlackAt(op, r.0[i]);
  }

  /** expr_eliminate_dups: joins operands and drops the units this leaves, until a pass joins nothing. It ends, joins
      nothing further in its result, and keeps the value unless two constants stand for the same value. */
  method EliminateDups(e: Expr) returns (r: Expr)
    ensures Plain(e) ==> forall env :: Sane(env) ==> Eval(env, r) == Eval(env, e)
    ensures Size(r) <= Size(e)
    ensures r.Bin? ==> Dups(r).1 == 0
    ensures Deduped(r)
  {
    hide Sane, Eval, Apart, Deduped;
    ghost var k := Consts(e) + BASIC;
    r := e;
    while true
      invariant Plain(e) ==> Consts(r) <= k && forall env :: Sane(env) ==> Eval(env, r) == Eval(env, e)
      invariant Size(r) <= Size(e)
      decreases Size(r)
    {
      if !r.Bin? {
        break;
      }
      var (d, joins) := Dups(r);
      forall env | Plain(e) && Sane(env)
        ensures Consts(EliminateYn(d)) <= k && Eval(env, EliminateYn(d)) == Eval(env, e)
      {
        DupsValue(env, r, k);
        EliminateYnConsts(d);
        EliminateYnValue(env, d);
      }
      DupsProgress(r);
      if joins == 0 {
        break;
      }
      SlackShrinks(d);
      AllWorthSane(0);
      r := EliminateYn(d);
    }
    NoJoinsDeduped(r);
  }

  /** The condition is needed. For a tristate symbol A, the simplifier turns A=y && A!="2" into A=y; at A=y the
      comparison with "2" is one of numbers, so the value changes from n to y. */
  lemma TwoIsYes(a: Symbol) returns (e: Expr, env: Env)
    requires a.stype.Tristate?
    ensures e == Bin(AndOp, Cmp(Eq, a, YES), Cmp(Ne, a, Const("2")))
    ensures Sane(env) && env.tri(a) == 2 && !Plain(e)
    ensures Eval(env, e) == 0 && Eval(env, EliminateYn(Dups(e).0)) == 2
  {
    hide Compare, Numeral, Dups, EliminateYn;
    var two := Const("2");
    e, env := Bin(AndOp, Cmp(Eq, a, YES), Cmp(Ne, a, two)), AllWorth(2);
    TwoStands();
    AllWorthSane(2);
    ConstantEqual(env, a, "2");
    LetterEqual(env, a);
    assert Clash(YES, two) && YES in Consts(e) + BASIC && two in Consts(e) + BASIC;
    TwoJoins(a);
  }

  lemma TwoStands()
    ensures StandsFor("2") == Some(2) && StandsFor("y") == Some(2)
  {
    assert Digit('2') == Some(2);
    assert Digits("", 10, 2) == Some(2);
    assert Digits("2", 10, 0) == Some(2);
    assert SkipSpace("2") == "2";
  }

  /** The pass joins the two operands and leaves the unit in the place of the first. */
  lemma TwoJoins(a: Symbol)
    requires a.stype.Tristate?
    ensures var e := Bin(AndOp, Cmp(Eq, a, YES), Cmp(Ne, a, Const("2")));
      EliminateYn(Dups(e).0) == Cmp(Eq, a, YES)
  {
    hide Sum, Size;
    var l, r, op := Cmp(Eq, a, YES), Cmp(Ne, a, Const("2")), AndOp;
    var e := Bin(op, l, r);
    var row, joined := [l, r], [Sym(YES), l];
    assert Operands(op, l) == [l] && Operands(op, r) == [r] && Operands(op, e) == row;
    OperandsSize(op, e);
    assert Count(op, e) == 2;
    TwoPairs(a, l, r, Size(e));
    assert Walk(op, l, 0, l, 0, row, Size(e)) == (row, 0);
    assert Walk(op, l, 0, r, 1, row, Size(e)) == (joined, 1);
    assert Walk(op, l, 0, e, 0, row, Size(e)) == (joined, 1);
    assert Walk(op, r, 1, l, 0, joined, Size(e)) == (joined, 0);
    assert Walk(op, r, 1, r, 1, joined, Size(e)) == (joined, 0);
    assert Walk(op, r, 1, e, 0, joined, Size(e)) == (joined, 0);
    assert Walk(op, e, 0, e, 0, row, Size(e)) == (joined, 1);
    assert Rebuild(op, e, joined) == Bin(op, Sym(YES), l);
    assert Dups(e).0 == Bin(op, Sym(YES), l);
  }

  lemma TwoPairs(a: Symbol, l: Expr, r: Expr, h: nat)
    requires a.stype.Tristate? && l == Cmp(Eq, a, YES) && r == Cmp(Ne, a, Const("2")) && Sum([l, r]) < h
    ensures Sum([Sym(YES), l]) < h
    ensures Pair(AndOp, 0, 1, [l, r], h) == ([Sym(YES), l], 1)
    ensures Pair(AndOp, 1, 0, [Sym(YES), l], h) == ([Sym(YES), l], 0)
  {
    assert Sum([l, r]) == Sum([Sym(YES), l]) == 2 by {
      assert [l, r][1..] == [r] && [r][1..] == [] && [Sym(YES), l][1..] == [l] && [l][1..] == [];
      assert Sum([l]) == 1 && Sum([r]) == 1;
    }
    assert Join(AndOp, l, r) == Some(l);
    assert Join(AndOp, l, Sym(YES)) == None;
    assert [l, r][0 := l] == [l, r] && [Sym(YES), l][1 := l] == [Sym(YES), l];
    assert [l, r][0 := Sym(YES)][1 := l] == [Sym(YES), l];
  }

  // ---------------------------------------------------------------------------------------------
  // What expr_eq finds
  // ---------------------------------------------------------------------------------------------

  predicate IsYn(e: Expr) {
    e == Sym(YES) || e == Sym(NO)
  }

  /** An operand after it was found on both sides; the constants y and n stay. */
  function Marked(op: Op, x: Expr): (r: Expr)
    ensures IsYn(r)
  {
    if IsYn(x) then x else Sym(Unit(op))
  }

  /** A constant meets nothing that it changes. */
  lemma {:induction false} YnPasses(op: Op, c: Expr, s: Expr)
    requires IsYn(c)
    ensures EliminateEq(op, c, s) == (c, s)
    decreases s
  {
    if IsOp(op, s) {
      YnPasses(op, c, s.left);
      YnPasses(op, c, s.right);
    }
  }

  /** Nor does an operand change a row of constants. */
  lemma {:induction false} PassesYn(op: Op, x: Expr, s: Expr, c: seq<Expr>)
    requires |c| == Count(op, s) && !IsOp(op, x) && forall k :: 0 <= k < |c| ==> IsYn(c[k])
    ensures EliminateEq(op, x, Rebuild(op, s, c)) == (x, Rebuild(op, s, c))
    decreases s
  {
    if IsOp(op, s) {
      var n := Count(op, s.left);
      PassesYn(op, x, s.left, c[..n]);
      PassesYn(op, x, s.right, c[n..]);
    }
  }

  /** An operand finds itself behind operands that were found before it. */
  lemma {:induction false} FindsItself(op: Op, x: Expr, s: Expr, c: seq<Expr>, k: nat)
    requires |c| == Count(op, s) && k < |c| && c[k] == x && (forall j :: 0 <= j < k ==> IsYn(c[j]))
    requires (forall j :: 0 <= j < |c| ==> !IsOp(op, c[j])) && ExprEq(x, x)
    ensures EliminateEq(op, x, Rebuild(op, s, c)) == (Marked(op, x), Rebuild(op, s, c[k := Marked(op, x)]))
    decreases s
  {
    if IsOp(op, s) {
      var n, m := Count(op, s.left), Marked(op, x);
      if k < n {
        FindsItself(op, x, s.left, c[..n], k);
        YnPasses(op, m, Rebuild(op, s.right, c[n..]));
        assert c[k := m][..n] == c[..n][k := m] && c[k := m][n..] == c[n..];
      } else {
        PassesYn(op, x, s.left, c[..n]);
        FindsItself(op, x, s.right, c[n..], k - n);
        assert c[k := m][..n] == c[..n] && c[k := m][n..] == c[n..][k - n := m];
      }
    }
  }

  /** The row with the operands from k to k + n marked. */
  function MarkedFrom(op: Op, c: seq<Expr>, k: nat, n: nat): (d: seq<Expr>)
    requires k + n <= |c|
    ensures |d| == |c| && (forall i :: k <= i < k + n ==> IsYn(d[i]))
    ensures forall i :: 0 <= i < |c| && !(k <= i < k + n) ==> d[i] == c[i]
  {
    seq(|c|, i requires 0 <= i < |c| => if k <= i < k + n then Marked(op, c[i]) else c[i])
  }

  /** The operands of a part of e find themselves in e. */
  lemma {:induction false} PartFinds(op: Op, part: Expr, e: Expr, c: seq<Expr>, k: nat)
    requires |c| == Count(op, e) && k + Count(op, part) <= |c| && c[k..k + Count(op, part)] == Operands(op, part)
    requires (forall j :: 0 <= j < k ==> IsYn(c[j])) && (forall j :: 0 <= j < |c| ==> !IsOp(op, c[j]))
    requires forall j :: 0 <= j < |c| ==> ExprEq(c[j], c[j])
    ensures EliminateEq(op, part, Rebuild(op, e, c)).1 == Rebuild(op, e, MarkedFrom(op, c, k, Count(op, part)))
    ensures EliminateEq(op, part, Rebuild(op, e, c)).0
         == Rebuild(op, part, MarkedFrom(op, Operands(op, part), 0, Count(op, part)))
    decreases part
  {
    hide ExprEq, IsYn, Marked, Size, MarkedFrom;
    if IsOp(op, part) {
      var l, r := part.left, part.right;
      var m, n := Count(op, l), Count(op, r);
      var a, b := Operands(op, l), Operands(op, r);
      PartRows(op, c, k, a, b);
      PartFinds(op, l, e, c, k);
      var d := MarkedFrom(op, c, k, m);
      PartFinds(op, r, e, d, k + m);
    } else {
      assert c[k] == c[k..k + 1][0] == part;
      FindsItself(op, part, e, c, k);
      MarkedOne(op, c, k, part);
    }
  }

  lemma MarkedOne(op: Op, c: seq<Expr>, k: nat, x: Expr)
    requires k < |c| && c[k] == x
    ensures MarkedFrom(op, c, k, 1) == c[k := Marked(op, x)] && MarkedFrom(op, [x], 0, 1) == [Marked(op, x)]
  {
  }

  lemma YnEqual(x: Expr)
    requires IsYn(x)
    ensures ExprEq(x, x)
  {
  }

  lemma PartRows(op: Op, c: seq<Expr>, k: nat, a: seq<Expr>, b: seq<Expr>)
    requires k + |a| + |b| <= |c| && c[k..k + (|a| + |b|)] == a + b
    requires forall j :: 0 <= j < |c| ==> !IsOp(op, c[j]) && ExprEq(c[j], c[j])
    ensures c[k..k + |a|] == a
    ensures var d, m, n := MarkedFrom(op, c, k, |a|), |a|, |b|;
      && d[k + m..k + m + n] == b && MarkedFrom(op, d, k + m, n) == MarkedFrom(op, c, k, m + n)
      && (forall j :: 0 <= j < |d| ==> !IsOp(op, d[j]) && ExprEq(d[j], d[j]))
      && MarkedFrom(op, a + b, 0, m + n)[..m] == MarkedFrom(op, a, 0, m)
      && MarkedFrom(op, a + b, 0, m + n)[m..] == MarkedFrom(op, b, 0, n)
  {
    hide ExprEq;
    var d, m, n := MarkedFrom(op, c, k, |a|), |a|, |b|;
    assert c[k..k + m] == c[k..k + (m + n)][..m] && c[k + m..k + m + n] == c[k..k + (m + n)][m..];
    assert (a + b)[..m] == a && (a + b)[m..] == b;
    forall j | 0 <= j < |d| ensures !IsOp(op, d[j]) && ExprEq(d[j], d[j]) {
      if k <= j < k + m { YnEqual(d[j]); } else { assert d[j] == c[j]; }
    }
  }

  lemma {:induction false} RowOfYn(op: Op, s: Expr, c: seq<Expr>)
    requires |c| == Count(op, s) && forall k :: 0 <= k < |c| ==> IsYn(c[k])
    ensures EliminateYn(Rebuild(op, s, c)).Sym?
    ensures IsYn(EliminateYn(Rebuild(op, s, c)))
    decreases s
  {
    if IsOp(op, s) {
      var n := Count(op, s.left);
      RowOfYn(op, s.left, c[..n]);
      RowOfYn(op, s.right, c[n..]);
    }
  }

  /** Every expression is equal to itself, constants in it or not. */
  lemma {:induction false} EqualToItself(e: Expr)
    ensures ExprEq(e, e)
    decreases Size(e)
  {
    match e
    case Sym(_) =>
    case Cmp(_, _, _) =>
    case Not(x) => EqualToItself(x);
    case Bin(op, _, _) =>
      var a := Operands(op, e);
      forall j | 0 <= j < |a| ensures ExprEq(a[j], a[j]) {
        OperandSmaller(op, e, j);
        EqualToItself(a[j]);
      }
      RebuildSame(op, e);
      PartFinds(op, e, e, a, 0);
      RowOfYn(op, e, MarkedFrom(op, a, 0, |a|));
  }

  lemma {:induction false} OperandSmaller(op: Op, e: Expr, j: nat)
    requires j < Count(op, e)
    ensures Size(Operands(op, e)[j]) <= Size(e) && (IsOp(op, e) ==> Size(Operands(op, e)[j]) < Size(e))
    decreases e
  {
    if IsOp(op, e) {
      var n := Count(op, e.left);
      if j < n { OperandSmaller(op, e.left, j); } else { OperandSmaller(op, e.right, j - n); }
    }
  }

  /** An expression up to the order and the grouping of the operands of one level. */
  datatype Form =
    | FSym(s: Symbol)
    | FCmp(rel: Rel, l: Symbol, r: Symbol)
    | FNot(f: Form)
    | FOp(op: Op, args: multiset<Form>)

  ghost function FormOf(e: Expr): Form
    decreases Size(e), 1
  {
    match e
    case Sym(s) => FSym(s)
    case Cmp(rel, l, r) => FCmp(rel, l, r)
    case Not(x) => FNot(FormOf(x))
    case Bin(op, _, _) => FOp(op, Bag(op, e))
  }

  /** The operands of one level, without its unit. */
  ghost function Bag(op: Op, e: Expr): multiset<Form>
    decreases Size(e), if IsOp(op, e) then 0 else 2
  {
    if IsOp(op, e) then Bag(op, e.left) + Bag(op, e.right)
    else if e == Sym(Unit(op)) then multiset{}
    else multiset{FormOf(e)}
  }

  /** The constants y and n stand nowhere in the expression but in comparisons. */
  predicate YnFree(e: Expr) {
    match e
    case Sym(s) => s != YES && s != NO
    case Cmp(_, _, _) => true
    case Not(x) => YnFree(x)
    case Bin(_, l, r) => YnFree(l) && YnFree(r)
  }

  /** A level whose operands are free of constants, but for units of the level. */
  predicate Level(op: Op, e: Expr) {
    if IsOp(op, e) then Level(op, e.left) && Level(op, e.right) else e == Sym(Unit(op)) || YnFree(e)
  }

  lemma LevelOp(op: Op, l: Expr, r: Expr)
    ensures Bag(op, Bin(op, l, r)) == Bag(op, l) + Bag(op, r)
    ensures Level(op, Bin(op, l, r)) <==> Level(op, l) && Level(op, r)
  {
  }

  lemma LevelLeaf(op: Op, e: Expr)
    requires !IsOp(op, e)
    ensures Bag(op, e) == if e == Sym(Unit(op)) then multiset{} else multiset{FormOf(e)}
    ensures Level(op, e) <==> e == Sym(Unit(op)) || YnFree(e)
  {
  }

  lemma {:induction false} YnFreeLevel(op: Op, e: Expr)
    requires YnFree(e)
    ensures Level(op, e) && Bag(op, e) != multiset{}
    decreases e
  {
    hide Bag, FormOf;
    if IsOp(op, e) {
      YnFreeLevel(op, e.left);
      YnFreeLevel(op, e.right);
      LevelOp(op, e.left, e.right);
    } else {
      LevelLeaf(op, e);
      assert FormOf(e) in Bag(op, e);
    }
  }

  lemma {:induction false} YnFreeStays(e: Expr)
    requires YnFree(e)
    ensures EliminateYn(e) == e
  {
    if e.Bin? {
      YnFreeStays(e.left);
      YnFreeStays(e.right);
    }
  }

  /** Dropping the units of a level leaves its operands. */
  lemma {:induction false} YnOfLevel(op: Op, e: Expr)
    requires Level(op, e)
    ensures Bag(op, EliminateYn(e)) == Bag(op, e)
    ensures EliminateYn(e) == Sym(Unit(op)) || YnFree(EliminateYn(e))
    decreases e
  {
    hide Bag, FormOf, Level;
    if IsOp(op, e) {
      LevelOp(op, e.left, e.right);
      YnOfLevel(op, e.left);
      YnOfLevel(op, e.right);
      LevelLeaf(op, Sym(Unit(op)));
      LevelOp(op, EliminateYn(e.left), EliminateYn(e.right));
    } else {
      LevelLeaf(op, e);
      if e != Sym(Unit(op)) { YnFreeStays(e); }
    }
  }

  lemma TakeFromBags(l: multiset<Form>, r: multiset<Form>, e: multiset<Form>)
    ensures (l - e) + (r - (e - l)) == (l + r) - e && (e - l) - r == e - (l + r)
  {
  }

  /** What removing common operands leaves of two levels: what the other one does not have. */
  ghost predicate LeavesOf(op: Op, e1: Expr, e2: Expr, f1: Expr, f2: Expr) {
    && Level(op, f1) && Level(op, f2)
    && Bag(op, f1) == Bag(op, e1) - Bag(op, e2) && Bag(op, f2) == Bag(op, e2) - Bag(op, e1)
  }

  lemma LeavesFirst(op: Op, l: Expr, r: Expr, e: Expr, l': Expr, r': Expr, ea: Expr, eb: Expr)
    requires LeavesOf(op, l, e, l', ea) && LeavesOf(op, r, ea, r', eb)
    ensures LeavesOf(op, Bin(op, l, r), e, Bin(op, l', r'), eb)
  {
    hide Bag, Level;
    LevelOp(op, l, r);
    LevelOp(op, l', r');
    TakeFromBags(Bag(op, l), Bag(op, r), Bag(op, e));
  }

  lemma LeavesSecond(op: Op, e: Expr, l: Expr, r: Expr, ea: Expr, eb: Expr, l': Expr, r': Expr)
    requires LeavesOf(op, e, l, ea, l') && LeavesOf(op, ea, r, eb, r')
    ensures LeavesOf(op, e, Bin(op, l, r), eb, Bin(op, l', r'))
  {
    hide Bag, Level;
    LevelOp(op, l, r);
    LevelOp(op, l', r');
    TakeFromBags(Bag(op, l), Bag(op, r), Bag(op, e));
  }

  lemma LeavesLeaf(op: Op, e1: Expr, e2: Expr)
    requires Level(op, e1) && Level(op, e2) && !IsOp(op, e1) && !IsOp(op, e2)
    requires YnFree(e1) && YnFree(e2) ==> (ExprEq(e1, e2) <==> FormOf(e1) == FormOf(e2))
    ensures var f := EliminateEq(op, e1, e2); LeavesOf(op, e1, e2, f.0, f.1)
  {
    hide Bag, FormOf, Level, ExprEq, Size, EliminateEq, YnFree;
    LevelLeaf(op, e1);
    LevelLeaf(op, e2);
    LevelLeaf(op, Sym(Unit(op)));
    EliminateEqLeaf(op, e1, e2);
    if e1 == Sym(Unit(op)) || e2 == Sym(Unit(op)) {
      NoneFrom(Bag(op, e1));
      NoneFrom(Bag(op, e2));
    } else {
      OneFrom(FormOf(e1), FormOf(e2));
      OneFrom(FormOf(e2), FormOf(e1));
    }
  }

  lemma NoneFrom(m: multiset<Form>)
    ensures m - multiset{} == m && multiset{} - m == multiset{}
  {
  }

  lemma OneFrom(f: Form, g: Form)
    ensures multiset{f} - multiset{g} == if f == g then multiset{} else multiset{f}
  {
  }

  /** Two operands: found equal, they go; a unit stays. */
  lemma EliminateEqLeaf(op: Op, e1: Expr, e2: Expr)
    requires Level(op, e1) && Level(op, e2) && !IsOp(op, e1) && !IsOp(op, e2)
    ensures YnFree(e1) && YnFree(e2) ==>
              EliminateEq(op, e1, e2) == if ExprEq(e1, e2) then (Sym(Unit(op)), Sym(Unit(op))) else (e1, e2)
    ensures e1 == Sym(Unit(op)) || e2 == Sym(Unit(op)) ==> EliminateEq(op, e1, e2) == (e1, e2)
  {
    if e1 == Sym(Unit(op)) || e2 == Sym(Unit(op)) { EqualYn(e1, e2); }
    hide ExprEq;
  }

  lemma EqualYn(e1: Expr, e2: Expr)
    requires IsYn(e1) || IsYn(e2)
    ensures ExprEq(e1, e2) <==> e1 == e2
  {
  }

  lemma {:induction false} EliminateEqBag(op: Op, e1: Expr, e2: Expr)
    requires Level(op, e1) && Level(op, e2)
    ensures var f := EliminateEq(op, e1, e2); LeavesOf(op, e1, e2, f.0, f.1)
    decreases Size(e1) + Size(e2), if IsOp(op, e1) || IsOp(op, e2) then 0 else 2
  {
    hide Bag, FormOf, ExprEq, LeavesOf, YnFree, Level;
    if IsOp(op, e1) {
      LevelOp(op, e1.left, e1.right);
      var (l, e2a) := EliminateEq(op, e1.left, e2);
      var (r, e2b) := EliminateEq(op, e1.right, e2a);
      EliminateEqBag(op, e1.left, e2);
      LeavesLevel(op, e1.left, e2, l, e2a);
      EliminateEqBag(op, e1.right, e2a);
      LeavesFirst(op, e1.left, e1.right, e2, l, r, e2a, e2b);
    } else if IsOp(op, e2) {
      LevelOp(op, e2.left, e2.right);
      var (e1a, l) := EliminateEq(op, e1, e2.left);
      var (e1b, r) := EliminateEq(op, e1a, e2.right);
      EliminateEqBag(op, e1, e2.left);
      LeavesLevel(op, e1, e2.left, e1a, l);
      EliminateEqBag(op, e1a, e2.right);
      LeavesSecond(op, e1, e2.left, e2.right, e1a, e1b, l, r);
    } else {
      if YnFree(e1) && YnFree(e2) { ExprEqIff(e1, e2); }
      LeavesLeaf(op, e1, e2);
    }
  }

  lemma LeavesLevel(op: Op, e1: Expr, e2: Expr, f1: Expr, f2: Expr)
    requires LeavesOf(op, e1, e2, f1, f2)
    ensures Level(op, f1) && Level(op, f2)
  {
  }

  /** expr_eq finds exactly the expressions that differ in no more than the order and the grouping of operands, if y and
      n stand in comparisons only. */
  lemma {:induction false} ExprEqIff(e1: Expr, e2: Expr)
    requires YnFree(e1) && YnFree(e2)
    ensures ExprEq(e1, e2) <==> FormOf(e1) == FormOf(e2)
    decreases Size(e1) + Size(e2), 1
  {
    if e1.Not? && e2.Not? {
      ExprEqIff(e1.e, e2.e);
    } else if e1.Bin? && IsOp(e1.op, e2) {
      var op := e1.op;
      var (f1, f2) := EliminateEq(op, e1, e2);
      YnFreeLevel(op, e1);
      YnFreeLevel(op, e2);
      EliminateEqBag(op, e1, e2);
      YnOfLevel(op, f1);
      YnOfLevel(op, f2);
      BothGone(op, Bag(op, e1), Bag(op, e2), EliminateYn(f1), EliminateYn(f2));
    }
  }

  lemma BothGone(op: Op, a: multiset<Form>, b: multiset<Form>, g1: Expr, g2: Expr)
    requires Bag(op, g1) == a - b && Bag(op, g2) == b - a
    requires (g1 == Sym(Unit(op)) || YnFree(g1)) && (g2 == Sym(Unit(op)) || YnFree(g2))
    ensures g1.Sym? && g1 == g2 <==> a == b
  {
    if a == b {
      assert a - b == multiset{} && b - a == multiset{};
      if g1 != Sym(Unit(op)) { YnFreeLevel(op, g1); }
      if g2 != Sym(Unit(op)) { YnFreeLevel(op, g2); }
    }
  }

  /** The operands of one level in another order are an equal expression. */
  lemma Reordered(op: Op, e1: Expr, e2: Expr)
    requires IsOp(op, e1) && IsOp(op, e2) && YnFree(e1) && YnFree(e2)
    requires multiset(Operands(op, e1)) == multiset(Operands(op, e2))
    ensures ExprEq(e1, e2)
  {
    RowBag(op, e1);
    RowBag(op, e2);
    BagSame(op, Operands(op, e1), Operands(op, e2));
    ExprEqIff(e1, e2);
  }

  ghost function BagOf(op: Op, a: seq<Expr>): multiset<Form> {
    if a == [] then multiset{} else Bag(op, a[0]) + BagOf(op, a[1..])
  }

  lemma {:induction false} BagAppend(op: Op, a: seq<Expr>, b: seq<Expr>)
    ensures BagOf(op, a + b) == BagOf(op, a) + BagOf(op, b)
  {
    hide Bag;
    if a == [] {
      assert a + b == b;
    } else {
      BagAppend(op, a[1..], b);
      assert (a + b)[1..] == a[1..] + b;
    }
  }

  lemma {:induction false} RowBag(op: Op, e: Expr)
    ensures BagOf(op, Operands(op, e)) == Bag(op, e)
    decreases e
  {
    if IsOp(op, e) {
      RowBag(op, e.left);
      RowBag(op, e.right);
      BagAppend(op, Operands(op, e.left), Operands(op, e.right));
    } else {
      assert Operands(op, e)[1..] == [];
    }
  }

  lemma BagTake(op: Op, b: seq<Expr>, j: nat)
    requires j < |b|
    ensures BagOf(op, b) == Bag(op, b[j]) + BagOf(op, b[..j] + b[j + 1..])
  {
    hide Bag;
    var x, y := b[..j], b[j + 1..];
    BagAppend(op, x, [b[j]] + y);
    BagAppend(op, x, y);
    assert b == x + ([b[j]] + y);
    assert ([b[j]] + y)[1..] == y && ([b[j]] + y)[0] == b[j];
  }

  lemma RowTake(b: seq<Expr>, j: nat)
    requires j < |b|
    ensures multiset(b[..j] + b[j + 1..]) == multiset(b) - multiset{b[j]}
  {
    assert b == b[..j] + [b[j]] + b[j + 1..];
  }

  lemma {:induction false} BagSame(op: Op, a: seq<Expr>, b: seq<Expr>)
    requires multiset(a) == multiset(b)
    ensures BagOf(op, a) == BagOf(op, b)
    decreases |a|
  {
    hide Bag;
    if a == [] {
      assert |multiset(b)| == |b| && |multiset(a)| == 0;
    } else {
      assert a[0] in multiset(b);
      var j :| 0 <= j < |b| && b[j] == a[0];
      RowTake(a, 0);
      RowTake(b, j);
      assert a[..0] + a[1..] == a[1..];
      BagSame(op, a[1..], b[..j] + b[j + 1..]);
      BagTake(op, b, j);
    }
  }

  // ---------------------------------------------------------------------------------------------
  // What expr_eliminate_dups leaves
  // ---------------------------------------------------------------------------------------------

  /** Two different ones of y, m and n. */
  ghost predicate TwoLetters(b: Symbol, c: Symbol) {
    b != c && (b == YES || b == MOD || b == NO) && (c == YES || c == MOD || c == NO)
  }

  /** One of the two operands is not needed beside the other: they are the same, or one of the pairs that the source
      lists for the operation. */
  ghost predicate Redundant(op: Op, x: Expr, y: Expr) {
    || x == y || (YnFree(x) && YnFree(y) && FormOf(x) == FormOf(y))
    || if op.OrOp? then
         // (a='y') || (a='m'), and the other two; a || !a
         || (IsCmp(x, Eq) && IsCmp(y, Eq) && x.l == y.l && x.l.stype.Tristate? && TwoLetters(x.r, y.r))
         || (x.Sym? && x.s.stype.Boolean? && y == Not(x))
       else
         // a && (a='y'), a && (a!='n'), a && (a!='m')
         || (x.Sym? && Logical(x.s) && (y == Cmp(Eq, x.s, YES) || y == Cmp(Ne, x.s, NO) || y == Cmp(Ne, x.s, MOD)))
         // (a='b') && (a!='c')
         || (IsCmp(x, Eq) && IsCmp(y, Ne) && x.l == y.l && x.l.stype.Tristate? && x.r.isConst && y.r.isConst)
         // (a!='y') && (a!='n'), and the other two
         || (IsCmp(x, Ne) && IsCmp(y, Ne) && x.l == y.l && x.l.stype.Tristate? && TwoLetters(x.r, y.r))
  }

  /** At every level of && and || no operand is redundant beside another one. */
  ghost predicate Deduped(e: Expr)
    decreases Size(e)
  {
    e.Bin? ==>
      var a := Operands(e.op, e);
      && (forall i, j :: 0 <= i < |a| && 0 <= j < |a| && i != j ==> !Redundant(e.op, a[i], a[j]))
      && (forall i :: 0 <= i < |a| ==> (OperandSmaller(e.op, e, i); Deduped(a[i])))
  }

  /** Redundant operands can be joined. */
  lemma RedundantJoins(op: Op, x: Expr, y: Expr)
    requires Redundant(op, x, y)
    ensures Join(op, x, y).Some?
  {
    hide ExprEq, FormOf;
    if x == y {
      EqualToItself(x);
    } else if YnFree(x) && YnFree(y) && FormOf(x) == FormOf(y) {
      ExprEqIff(x, y);
    }
  }

  /** A walk that joins nothing has tried every pair of different operands, and every operand inside. */
  lemma {:induction false} WalkTries(op: Op, s1: Expr, i: nat, s2: Expr, j: nat, a: seq<Expr>, h: nat, k: nat, l: nat)
    requires i + Count(op, s1) <= |a| && j + Count(op, s2) <= |a| && Sum(a) < h
    requires forall x :: 0 <= x < |a| ==> !IsOp(op, a[x])
    requires Walk(op, s1, i, s2, j, a, h).1 == 0
    requires i <= k < i + Count(op, s1) && j <= l < j + Count(op, s2) && k != l
    ensures Join(op, a[k], a[l]).None? && (a[k].Bin? ==> Dups(a[k]).1 == 0)
    decreases h, Size(s1) + Size(s2)
  {
    hide Pair, Sum, Join, Dups;
    if IsOp(op, s1) {
      var n := Count(op, s1.left);
      WalkProgress(op, s1.left, i, s2, j, a, h);
      if k < i + n {
        WalkTries(op, s1.left, i, s2, j, a, h, k, l);
      } else {
        WalkTries(op, s1.right, i + n, s2, j, a, h, k, l);
      }
    } else if IsOp(op, s2) {
      var n := Count(op, s2.left);
      WalkProgress(op, s1, i, s2.left, j, a, h);
      if l < j + n {
        WalkTries(op, s1, i, s2.left, j, a, h, k, l);
      } else {
        WalkTries(op, s1, i, s2.right, j + n, a, h, k, l);
      }
    } else {
      PairTries(op, i, j, a, h);
    }
  }

  lemma {:induction false} PairTries(op: Op, i: nat, j: nat, a: seq<Expr>, h: nat)
    requires i < |a| && j < |a| && i != j && Sum(a) < h
    requires forall k :: 0 <= k < |a| ==> !IsOp(op, a[k])
    requires Pair(op, i, j, a, h).1 == 0
    ensures Join(op, a[i], a[j]).None? && (a[i].Bin? ==> Dups(a[i]).1 == 0)
  {
    hide Join, Dups;
    SumSet(a, i, a[i]);
    if a[i].Bin? { DupsProgress(a[i]); }
    assert a[i := a[i]] == a;
  }

  /** What a pass without a join leaves as it is has nothing redundant in it. */
  lemma {:induction false} NoJoinsDeduped(e: Expr)
    requires e.Bin? ==> Dups(e).1 == 0
    ensures Deduped(e)
    decreases Size(e)
  {
    hide Walk, Join, Redundant;
    if e.Bin? {
      var op, a := e.op, Operands(e.op, e);
      OperandsSize(op, e);
      forall i, j | 0 <= i < |a| && 0 <= j < |a| && i != j ensures !Redundant(op, a[i], a[j]) {
        WalkTries(op, e, 0, e, 0, a, Size(e), i, j);
        if Redundant(op, a[i], a[j]) { RedundantJoins(op, a[i], a[j]); }
      }
      forall i | 0 <= i < |a| ensures Deduped(a[i]) {
        OperandSmaller(op, e, i);
        WalkTries(op, e, 0, e, 0, a, Size(e), i, if i == 0 then 1 else 0);
        NoJoinsDeduped(a[i]);
      }
    }
  }

  /** No operand of an operation is y or n. */
  predicate YnDropped(e: Expr) {
    e.Bin? ==> !IsYn(e.left) && !IsYn(e.right) && YnDropped(e.left) && YnDropped(e.right)
  }

  lemma {:induction false} EliminateYnDrops(e: Expr)
    ensures YnDropped(EliminateYn(e))
  {
    if e.Bin? {
      EliminateYnDrops(e.left);
      EliminateYnDrops(e.right);
    }
  }

  /** No boolean symbol is compared with y, m or n. */
  predicate BooleansPlain(e: Expr) {
    match e
    case Sym(_) => true
    case Cmp(rel, l, r) => l.stype.Boolean? && (rel.Eq? || rel.Ne?) ==> r != YES && r != MOD && r != NO
    case Not(x) => BooleansPlain(x)
    case Bin(_, l, r) => BooleansPlain(l) && BooleansPlain(r)
  }

  lemma {:induction false} TransformPlain(e: Expr)
    ensures BooleansPlain(Transform(e))
    decreases Weight(e)
  {
    match e
    case Sym(_) =>
    case Cmp(_, _, _) =>
    case Bin(op, l, r) =>
      TransformPlain(l);
      TransformPlain(r);
    case Not(x) =>
      TransformPlain(x);
      var y := Transform(x);
      match y {
        case Not(z) => TransformPlain(z);
        case Cmp(rel, l, r) =>
        case Bin(op, a, b) =>
          DeMorganWeight(op, a, b);
          TransformPlain(DeMorgan(op, a, b));
        case Sym(s) =>
      }
  }

  /** expr_eliminate_eq leaves no operand on both sides, and removes nothing else. */
  lemma CommonGone(op: Op, e1: Expr, e2: Expr)
    requires YnFree(e1) && YnFree(e2)
    ensures var (f1, f2) := EliminateEq(op, e1, e2);
      var g1, g2 := EliminateYn(f1), EliminateYn(f2);
      && Bag(op, g1) !! Bag(op, g2)
      && Bag(op, e1) == Bag(op, g1) + Bag(op, e1) * Bag(op, e2)
      && Bag(op, e2) == Bag(op, g2) + Bag(op, e1) * Bag(op, e2)
  {
    hide Bag, FormOf, ExprEq, YnFree, EliminateEq, EliminateYn, Level;
    YnFreeLevel(op, e1);
    YnFreeLevel(op, e2);
    EliminateEqBag(op, e1, e2);
    var (f1, f2) := EliminateEq(op, e1, e2);
    YnOfLevel(op, f1);
    YnOfLevel(op, f2);
    BagsApart(Bag(op, e1), Bag(op, e2));
  }

  lemma BagsApart(a: multiset<Form>, b: multiset<Form>)
    ensures (a - b) !! (b - a) && a == (a - b) + a * b && b == (b - a) + a * b
  {
  }
}
