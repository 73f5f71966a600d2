/** The `cfg` decision procedure: formulas compiled to disjunctive normal form. */
module CfgDnf {
  import opened Bytes

  type Atom = string
  type Term = set<Atom>
  type Dnf = seq<Term>

  datatype Op = All | Any | Not

  /** A parsed `cfg` predicate; `Bare` is an operator without an argument list, `Always` an unreadable atom. */
  datatype Cfg =
    | Always
    | Name(id: string)
    | KeyValue(key: string, value: string)
    | Group(op: Op, args: seq<Cfg>)
    | Bare(bare: Op)

  const TEST: Atom := "__test__"

  // ---- meaning -----------------------------------------------------------------------------

  /** Truth when exactly the atoms of `env` hold; what the tool does not know counts as true. */
  predicate Eval(c: Cfg, env: set<Atom>) {
    match c
    case Name(id) => id == "test" ==> TEST in env
    case KeyValue(key, value) => key == "feature" ==> value in env
    case Group(All, args) => forall k :: 0 <= k < |args| ==> Eval(args[k], env)
    case Group(Any, args) => exists k :: 0 <= k < |args| && Eval(args[k], env)
    case Group(Not, args) => args != [] && !Eval(args[0], env)
    case _ => true
  }

  predicate Holds(d: Dnf, env: set<Atom>) {
    exists k :: 0 <= k < |d| && d[k] <= env
  }

  // ---- simplification -----------------------------------------------------------------------

  predicate Absorbed(t: Term, d: Dnf) {
    exists k :: 0 <= k < |d| && d[k] <= t && t != d[k]
  }

  /** The terms of `rest` that nothing in `d` absorbs, each once, after those already in `unique`. */
  function Collect(d: Dnf, rest: Dnf, unique: Dnf): (r: Dnf)
    decreases |rest|
  {
    if rest == [] then unique
    else Collect(d, rest[1..], if Absorbed(rest[0], d) || rest[0] in unique then unique else unique + [rest[0]])
  }

  function Simplify(d: Dnf): (r: Dnf) {
    if {} in d then [{}] else Collect(d, d, [])
  }

  method SimplifyDnf(d: Dnf) returns (unique: Dnf)
    ensures unique == Simplify(d)
  {
    if {} in d {
      return [{}];
    }
    unique := [];
    assert d[0..] == d;
    for k := 0 to |d|
      invariant Collect(d, d[k..], unique) == Collect(d, d, [])
    {
      assert d[k..][0] == d[k] && d[k..][1..] == d[k + 1..];
      if Absorbed(d[k], d) {
        continue;
      }
      if d[k] !in unique {
        unique := unique + [d[k]];
      }
    }
    assert d[|d|..] == [];
  }

  /** Exactly the terms that nothing absorbs are collected. */
  lemma {:induction false} CollectMembers(d: Dnf, rest: Dnf, unique: Dnf, t: Term)
    ensures t in Collect(d, rest, unique) <==> t in unique || (t in rest && !Absorbed(t, d))
    decreases |rest|
  {
    hide Absorbed;
    if rest != [] {
      var next := if Absorbed(rest[0], d) || rest[0] in unique then unique else unique + [rest[0]];
      CollectMembers(d, rest[1..], next, t);
      assert rest == [rest[0]] + rest[1..];
    }
  }

  /** Below every term there is one that nothing absorbs. */
  lemma {:induction false} LeastBelow(d: Dnf, t: Term) returns (m: Term)
    requires t in d
    ensures m in d && m <= t && !Absorbed(m, d)
    decreases |t|
  {
    if Absorbed(t, d) {
      var k :| 0 <= k < |d| && d[k] <= t && t != d[k];
      SmallerSet(d[k], t);
      m := LeastBelow(d, d[k]);
    } else {
      m := t;
    }
  }

  lemma SmallerSet(a: Term, b: Term)
    requires a < b
    ensures |a| < |b|
  {
    var x :| x in b && x !in a;
    SubsetSize(a, b - {x});
  }

  lemma HoldsByTerm(d: Dnf, t: Term, env: set<Atom>)
    requires t in d && t <= env
    ensures Holds(d, env)
  {
    var k :| 0 <= k < |d| && d[k] == t;
  }

  lemma TermOf(d: Dnf, env: set<Atom>) returns (t: Term)
    requires Holds(d, env)
    ensures t in d && t <= env
  {
    var k :| 0 <= k < |d| && d[k] <= env;
    t := d[k];
  }

  /** Simplification keeps the truth under every assignment. */
  lemma SimplifyPreserves(d: Dnf, env: set<Atom>)
    ensures Holds(Simplify(d), env) <==> Holds(d, env)
  {
    hide Collect, Holds;
    if {} in d {
      HoldsByTerm(d, {}, env);
      HoldsByTerm([{}], {}, env);
    } else {
      if Holds(d, env) {
        var t := TermOf(d, env);
        var m := LeastBelow(d, t);
        CollectMembers(d, d, [], m);
        HoldsByTerm(Simplify(d), m, env);
      }
      if Holds(Simplify(d), env) {
        var t := TermOf(Simplify(d), env);
        CollectMembers(d, d, [], t);
        HoldsByTerm(d, t, env);
      }
    }
  }

  /** No term of the result makes another superfluous, and none is in it twice. */
  predicate Irredundant(d: Dnf) {
    forall j, k :: 0 <= j < |d| && 0 <= k < |d| && j != k ==> !(d[j] <= d[k])
  }

  predicate Distinct(d: Dnf) {
    forall j, k :: 0 <= j < k < |d| ==> d[j] != d[k]
  }

  lemma {:induction false} CollectOnce(d: Dnf, rest: Dnf, unique: Dnf)
    requires Distinct(unique)
    ensures Distinct(Collect(d, rest, unique))
    decreases |rest|
  {
    hide Absorbed;
    if rest != [] {
      var next := if Absorbed(rest[0], d) || rest[0] in unique then unique else unique + [rest[0]];
      CollectOnce(d, rest[1..], next);
    }
  }

  /** Simplification leaves exactly what is needed: nothing in it can be left out. */
  lemma SimplifyIrredundant(d: Dnf)
    ensures Irredundant(Simplify(d))
  {
    hide Collect;
    var r := Simplify(d);
    if {} !in d {
      CollectOnce(d, d, []);
      forall j, k | 0 <= j < |r| && 0 <= k < |r| && j != k ensures !(r[j] <= r[k]) {
        CollectMembers(d, d, [], r[j]);
        CollectMembers(d, d, [], r[k]);
        assert r[j] in r && r[k] in r;
        var i :| 0 <= i < |d| && d[i] == r[j];
        assert j < k || k < j;
      }
    }
  }

  // ---- the connectives ------------------------------------------------------------------------

  function Or(left: Dnf, right: Dnf): (r: Dnf) {
    Simplify(left + right)
  }

  /** One term of `left` united with each of `right`. */
  function Times(t: Term, right: Dnf): (r: Dnf)
    decreases |right|
  {
    if right == [] then [] else [t + right[0]] + Times(t, right[1..])
  }

  function Product(left: Dnf, right: Dnf): (r: Dnf)
    decreases |left|
  {
    if left == [] then [] else Times(left[0], right) + Product(left[1..], right)
  }

  function And(left: Dnf, right: Dnf): (r: Dnf) {
    Simplify(Product(left, right))
  }

  lemma HoldsConcat(a: Dnf, b: Dnf, env: set<Atom>)
    ensures Holds(a + b, env) <==> Holds(a, env) || Holds(b, env)
  {
    if Holds(a, env) {
      var t := TermOf(a, env);
      HoldsByTerm(a + b, t, env);
    }
    if Holds(b, env) {
      var t := TermOf(b, env);
      HoldsByTerm(a + b, t, env);
    }
    if Holds(a + b, env) {
      var t := TermOf(a + b, env);
      if t in a {
        HoldsByTerm(a, t, env);
      } else {
        HoldsByTerm(b, t, env);
      }
    }
  }

  lemma HoldsOne(t: Term, env: set<Atom>)
    ensures Holds([t], env) <==> t <= env
  {
    if t <= env {
      HoldsByTerm([t], t, env);
    }
  }

  lemma HoldsNone(env: set<Atom>)
    ensures !Holds([], env)
  {
  }

  lemma {:induction false} TimesMeans(t: Term, right: Dnf, env: set<Atom>)
    ensures Holds(Times(t, right), env) <==> t <= env && Holds(right, env)
    decreases |right|
  {
    hide Holds;
    HoldsNone(env);
    if right != [] {
      TimesMeans(t, right[1..], env);
      HoldsConcat([t + right[0]], Times(t, right[1..]), env);
      HoldsConcat([right[0]], right[1..], env);
      HoldsOne(t + right[0], env);
      HoldsOne(right[0], env);
      assert right == [right[0]] + right[1..];
    }
  }

  lemma {:induction false} ProductMeans(left: Dnf, right: Dnf, env: set<Atom>)
    ensures Holds(Product(left, right), env) <==> Holds(left, env) && Holds(right, env)
    decreases |left|
  {
    hide Holds;
    HoldsNone(env);
    if left != [] {
      ProductMeans(left[1..], right, env);
      TimesMeans(left[0], right, env);
      HoldsConcat(Times(left[0], right), Product(left[1..], right), env);
      HoldsConcat([left[0]], left[1..], env);
      HoldsOne(left[0], env);
      assert left == [left[0]] + left[1..];
    }
  }

  lemma AndMeans(left: Dnf, right: Dnf, env: set<Atom>)
    ensures Holds(And(left, right), env) <==> Holds(left, env) && Holds(right, env)
  {
    hide Holds, Simplify, Product;
    ProductMeans(left, right, env);
    SimplifyPreserves(Product(left, right), env);
  }

  lemma AndOfTerms(s: Term, t: Term)
    ensures And([s], [t]) == [s + t]
  {
    var d := [s + t];
    assert [s][1..] == [] && [t][1..] == [] && d[1..] == [];
    assert Times(s, [t]) == d && Product([s], [t]) == d;
    if {} !in d {
      assert !Absorbed(d[0], d) && Collect(d, d, []) == Collect(d, [], [] + [d[0]]);
    }
  }

  lemma OrMeans(left: Dnf, right: Dnf, env: set<Atom>)
    ensures Holds(Or(left, right), env) <==> Holds(left, env) || Holds(right, env)
  {
    hide Holds, Simplify;
    HoldsConcat(left, right, env);
    SimplifyPreserves(left + right, env);
  }

  // ---- compilation ------------------------------------------------------------------------------

  /**
    The source fails on an operator without arguments and on the name its own tuples use; so does this, with
    `None`.
  */
  function Compile(c: Cfg): (r: Option<Dnf>)
    decreases c, if c.Group? then |c.args| + 2 else 0
  {
    match c
    case Name(id) => if id == "kv" then None else Some(if id == "test" then [{TEST}] else [{}])
    case KeyValue(key, value) => Some(if key == "feature" then [{value}] else [{}])
    case Group(Not, args) =>
      if args == [] then Some([])
      else
        var inner := Compile(args[0]);
        if inner.None? then None else if inner.value == [{}] then Some([]) else Some([{}])
    case Group(All, args) => CompileAll(c, 0, [{}])
    case Group(Any, args) => CompileAny(c, 0, [])
    case Bare(_) => None
    case _ => Some([{}])
  }

  function CompileAll(c: Cfg, k: nat, acc: Dnf): (r: Option<Dnf>)
    requires c.Group? && k <= |c.args|
    decreases c, |c.args| - k + 1
  {
    if k == |c.args| then Some(acc)
    else
      var d := Compile(c.args[k]);
      if d.None? then None else CompileAll(c, k + 1, And(acc, d.value))
  }

  function CompileAny(c: Cfg, k: nat, acc: Dnf): (r: Option<Dnf>)
    requires c.Group? && k <= |c.args|
    decreases c, |c.args| - k + 1
  {
    if k == |c.args| then Some(acc)
    else
      var d := Compile(c.args[k]);
      if d.None? then None else CompileAny(c, k + 1, Or(acc, d.value))
  }

  function RequiresTest(c: Cfg): (r: bool) {
    var d := Compile(c);
    d.Some? && d.value != [] && forall k :: 0 <= k < |d.value| ==> TEST in d.value[k]
  }

  // ---- exactness ----------------------------------------------------------------------------------

  /** Without `not`, and without the two forms the source fails on. */
  predicate NegationFree(c: Cfg) {
    match c
    case Group(op, args) => op != Not && forall k :: 0 <= k < |args| ==> NegationFree(args[k])
    case Name(id) => id != "kv"
    case Bare(_) => false
    case _ => true
  }

  /** The compiled form holds under exactly the assignments the formula does. */
  lemma {:induction false} CompileExact(c: Cfg, env: set<Atom>)
    requires NegationFree(c)
    ensures Compile(c).Some? && (Holds(Compile(c).value, env) <==> Eval(c, env))
    decreases c, if c.Group? then |c.args| + 2 else 0
  {
    hide Holds;
    HoldsOne({}, env);
    match c
    case Name(_) => HoldsOne({TEST}, env);
    case KeyValue(key, value) => HoldsOne({value}, env);
    case Group(All, args) => AllExact(c, 0, [{}], env);
    case Group(Any, args) =>
      HoldsNone(env);
      AnyExact(c, 0, [], env);
    case _ =>
  }

  lemma {:induction false} AllExact(c: Cfg, k: nat, acc: Dnf, env: set<Atom>)
    requires NegationFree(c) && c.Group? && k <= |c.args|
    ensures var r := CompileAll(c, k, acc);
            && r.Some?
            && (Holds(r.value, env) <==> Holds(acc, env) && forall j :: k <= j < |c.args| ==> Eval(c.args[j], env))
    decreases c, |c.args| - k + 1
  {
    hide Holds, And, Compile, Eval;
    if k < |c.args| {
      CompileExact(c.args[k], env);
      var d := Compile(c.args[k]).value;
      AndMeans(acc, d, env);
      AllExact(c, k + 1, And(acc, d), env);
    }
  }

  lemma {:induction false} AnyExact(c: Cfg, k: nat, acc: Dnf, env: set<Atom>)
    requires NegationFree(c) && c.Group? && k <= |c.args|
    ensures var r := CompileAny(c, k, acc);
            && r.Some?
            && (Holds(r.value, env) <==> Holds(acc, env) || exists j :: k <= j < |c.args| && Eval(c.args[j], env))
    decreases c, |c.args| - k + 1
  {
    hide Holds, Or, Compile, Eval;
    if k < |c.args| {
      CompileExact(c.args[k], env);
      var d := Compile(c.args[k]).value;
      OrMeans(acc, d, env);
      AnyExact(c, k + 1, Or(acc, d), env);
    }
  }

  predicate HasNot(c: Cfg) {
    c.Group? && (c.op == Not || exists k :: 0 <= k < |c.args| && HasNot(c.args[k]))
  }

  /** A formula without `not` that has one of those forms anywhere is refused, and the answer is no. */
  lemma {:induction false} MalformedRefused(c: Cfg)
    requires !HasNot(c) && !NegationFree(c)
    ensures Compile(c).None? && !RequiresTest(c)
    decreases c
  {
    if c.Group? {
      var k :| 0 <= k < |c.args| && !NegationFree(c.args[k]);
      MalformedRefused(c.args[k]);
      FailureSpreads(c, 0, k, [{}]);
      FailureSpreads(c, 0, k, []);
    }
  }

  lemma {:induction false} FailureSpreads(c: Cfg, i: nat, k: nat, acc: Dnf)
    requires c.Group? && i <= k < |c.args| && Compile(c.args[k]).None?
    ensures CompileAll(c, i, acc).None? && CompileAny(c, i, acc).None?
    decreases k - i
  {
    hide And, Or, Compile;
    if i < k && Compile(c.args[i]).Some? {
      FailureSpreads(c, i + 1, k, And(acc, Compile(c.args[i]).value));
      FailureSpreads(c, i + 1, k, Or(acc, Compile(c.args[i]).value));
    }
  }

  /** True exactly when the formula can hold and never holds without the test atom. */
  lemma RequiresTestExact(c: Cfg)
    requires NegationFree(c)
    ensures RequiresTest(c) <==> (exists env :: Eval(c, env)) && (forall env :: Eval(c, env) ==> TEST in env)
  {
    hide Eval, Compile;
    CompileExact(c, {});
    var d := Compile(c).value;
    if RequiresTest(c) {
      CompileExact(c, d[0]);
      HoldsByTerm(d, d[0], d[0]);
      forall env | Eval(c, env) ensures TEST in env {
        CompileExact(c, env);
        var t := TermOf(d, env);
      }
    } else if d != [] {
      var k :| 0 <= k < |d| && TEST !in d[k];
      CompileExact(c, d[k]);
      HoldsByTerm(d, d[k], d[k]);
    } else {
      forall env ensures !Eval(c, env) {
        CompileExact(c, env);
        HoldsNone(env);
      }
    }
  }

  // ---- one level of negation ----------------------------------------------------------------------

  /** Negation only of negation-free formulas. */
  predicate Shallow(c: Cfg) {
    match c
    case Group(Not, args) => args != [] ==> NegationFree(args[0])
    case Group(_, args) => forall k :: 0 <= k < |args| ==> Shallow(args[k])
    case Name(id) => id != "kv"
    case Bare(_) => false
    case _ => true
  }

  /** There the compiled form holds whenever the formula does. */
  lemma {:induction false} CompileCovers(c: Cfg, env: set<Atom>)
    requires Shallow(c)
    ensures Compile(c).Some? && (Eval(c, env) ==> Holds(Compile(c).value, env))
    decreases c, if c.Group? then |c.args| + 2 else 0
  {
    hide Holds;
    HoldsOne({}, env);
    match c
    case Name(_) => HoldsOne({TEST}, env);
    case KeyValue(key, value) => HoldsOne({value}, env);
    case Group(Not, args) =>
      if args != [] {
        CompileExact(args[0], env);
      }
    case Group(All, args) => AllCovers(c, 0, [{}], env);
    case Group(Any, args) => AnyCovers(c, 0, [], env);
    case _ =>
  }

  lemma {:induction false} AllCovers(c: Cfg, k: nat, acc: Dnf, env: set<Atom>)
    requires Shallow(c) && c.Group? && c.op == All && k <= |c.args|
    ensures var r := CompileAll(c, k, acc);
            && r.Some?
            && (Holds(acc, env) && (forall j :: k <= j < |c.args| ==> Eval(c.args[j], env)) ==> Holds(r.value, env))
    decreases c, |c.args| - k + 1
  {
    hide Holds, And, Compile, Eval;
    if k < |c.args| {
      CompileCovers(c.args[k], env);
      var d := Compile(c.args[k]).value;
      AndMeans(acc, d, env);
      AllCovers(c, k + 1, And(acc, d), env);
    }
  }

  lemma {:induction false} AnyCovers(c: Cfg, k: nat, acc: Dnf, env: set<Atom>)
    requires Shallow(c) && c.Group? && c.op == Any && k <= |c.args|
    ensures var r := CompileAny(c, k, acc);
            && r.Some?
            && (Holds(acc, env) || (exists j :: k <= j < |c.args| && Eval(c.args[j], env)) ==> Holds(r.value, env))
    decreases c, |c.args| - k + 1
  {
    hide Holds, Or, Compile, Eval;
    if k < |c.args| {
      CompileCovers(c.args[k], env);
      var d := Compile(c.args[k]).value;
      OrMeans(acc, d, env);
      AnyCovers(c, k + 1, Or(acc, d), env);
    }
  }

  /** So after an answer of true no satisfying assignment lacks the test atom. */
  lemma RequiresTestSound(c: Cfg, env: set<Atom>)
    requires Shallow(c) && RequiresTest(c) && Eval(c, env)
    ensures TEST in env
  {
    hide Eval, Compile, Shallow;
    CompileCovers(c, env);
    var t := TermOf(Compile(c).value, env);
  }

  /** There may be none at all: with negation, true is also answered for a formula that never holds. */
  lemma NeverHoldsAnsweredYes()
    ensures var c := Group(All, [Name("test"), Group(Not, [Name("test")])]);
            Shallow(c) && RequiresTest(c) && forall env :: !Eval(c, env)
  {
    var name := Name("test");
    var no := Group(Not, [name]);
    var c := Group(All, [name, no]);
    assert Compile(name) == Some([{TEST}]) && Compile(no) == Some([{}]);
    forall env ensures !Eval(c, env) {
      assert c.args[0] == name && c.args[1] == no;
      assert Eval(c, env) ==> Eval(name, env) && Eval(no, env);
      assert no.args[0] == name;
    }
    AndOfTerms({}, {TEST});
    AndOfTerms({TEST}, {});
    assert {} + {TEST} == {TEST} + {} == {TEST};
    assert CompileAll(c, 0, [{}]) == CompileAll(c, 1, [{TEST}]) == CompileAll(c, 2, [{TEST}]);
  }

  // ---- a feature that shares the test atom ----------------------------------------------------------

  /** Truth with the test flag and the features kept apart. */
  predicate Real(c: Cfg, test: bool, features: set<Atom>) {
    match c
    case Name(id) => id == "test" ==> test
    case KeyValue(key, value) => key == "feature" ==> value in features
    case Group(All, args) => forall k :: 0 <= k < |args| ==> Real(args[k], test, features)
    case Group(Any, args) => exists k :: 0 <= k < |args| && Real(args[k], test, features)
    case Group(Not, args) => args != [] && !Real(args[0], test, features)
    case _ => true
  }

  function Features(c: Cfg): (fs: set<Atom>) {
    match c
    case KeyValue(key, value) => if key == "feature" then {value} else {}
    case Group(_, args) => set k, f | 0 <= k < |args| && f in Features(args[k]) :: f
    case _ => {}
  }

  lemma {:induction false} SplitAgrees(c: Cfg, env: set<Atom>)
    ensures Real(c, TEST in env, env) <==> Eval(c, env)
    decreases c
  {
    if c.Group? {
      forall k | 0 <= k < |c.args| ensures Real(c.args[k], TEST in env, env) <==> Eval(c.args[k], env) {
        SplitAgrees(c.args[k], env);
      }
    }
  }

  /** Only the named features matter, and more of them never hurt. */
  lemma {:induction false} RealGrows(c: Cfg, test: bool, some: set<Atom>, more: set<Atom>)
    requires NegationFree(c) && some * Features(c) <= more && Real(c, test, some)
    ensures Real(c, test, more)
    decreases c
  {
    if c.Group? {
      forall k | 0 <= k < |c.args| && Real(c.args[k], test, some) ensures Real(c.args[k], test, more) {
        assert forall f :: f in Features(c.args[k]) ==> f in Features(c);
        RealGrows(c.args[k], test, some, more);
      }
    }
  }

  /** The formula can hold, and never without the test flag. */
  ghost predicate ReallyRequiresTest(c: Cfg) {
    (exists test, features :: Real(c, test, features)) && (forall test, features :: Real(c, test, features) ==> test)
  }

  /** The flag never hurts either. */
  lemma {:induction false} FlagHelps(c: Cfg, features: set<Atom>)
    requires NegationFree(c) && Real(c, false, features)
    ensures Real(c, true, features)
    decreases c
  {
    if c.Group? {
      forall k | 0 <= k < |c.args| && Real(c.args[k], false, features) ensures Real(c.args[k], true, features) {
        FlagHelps(c.args[k], features);
      }
    }
  }

  /** The true answer: the one given, unless the formula holds with the flag off and all its features on. */
  lemma TrueAnswer(c: Cfg)
    requires NegationFree(c)
    ensures ReallyRequiresTest(c) <==> RequiresTest(c) && !Real(c, false, Features(c))
  {
    hide Real, Eval, RequiresTest, NegationFree, Features;
    RequiresTestExact(c);
    if ReallyRequiresTest(c) {
      var test, features :| Real(c, test, features);
      RealGrows(c, test, features, features + {TEST});
      SplitAgrees(c, features + {TEST});
      forall env | Eval(c, env) ensures TEST in env {
        SplitAgrees(c, env);
      }
    }
    if RequiresTest(c) && !Real(c, false, Features(c)) {
      var env :| Eval(c, env);
      SplitAgrees(c, env);
      forall test, features | Real(c, test, features) ensures test {
        if !test {
          RealGrows(c, test, features, Features(c));
        }
      }
    }
  }

  /** A formula that holds with the flag off only by way of the reserved feature is answered yes. */
  lemma CollisionAnsweredYes(c: Cfg)
    requires NegationFree(c) && Real(c, false, Features(c))
    ensures RequiresTest(c) <==> !Real(c, false, Features(c) - {TEST})
  {
    hide Real, Eval, RequiresTest, NegationFree, Features;
    RequiresTestExact(c);
    SplitAgrees(c, Features(c) - {TEST});
    if !Real(c, false, Features(c) - {TEST}) {
      FlagHelps(c, Features(c));
      RealGrows(c, true, Features(c), Features(c) + {TEST});
      SplitAgrees(c, Features(c) + {TEST});
      forall env | Eval(c, env) ensures TEST in env {
        SplitAgrees(c, env);
        if TEST !in env {
          RealGrows(c, false, env, Features(c) - {TEST});
        }
      }
    }
  }

  /**
    The answer is right exactly for the formulas that, with the flag off, do not need the feature of
    the reserved name: if all their features make them hold, so do all but that one.
  */
  lemma AnswerRightExactly(c: Cfg)
    requires NegationFree(c)
    ensures (RequiresTest(c) <==> ReallyRequiresTest(c))
            <==> (Real(c, false, Features(c)) ==> Real(c, false, Features(c) - {TEST}))
  {
    hide Real, RequiresTest, NegationFree, Features, ReallyRequiresTest;
    TrueAnswer(c);
    if Real(c, false, Features(c)) {
      CollisionAnsweredYes(c);
    }
  }

  /** Formulas that name no feature of the reserved name are always answered right. */
  lemma AnswerRightWithoutCollision(c: Cfg)
    requires NegationFree(c) && TEST !in Features(c)
    ensures ReallyRequiresTest(c) <==> RequiresTest(c)
  {
    hide Real, Eval, RequiresTest, NegationFree, Features, ReallyRequiresTest;
    AnswerRightExactly(c);
    assert Features(c) - {TEST} == Features(c);
  }

  /** One that does can be answered wrong: this feature is taken for the test flag. */
  lemma CollisionMisleads()
    ensures var c := KeyValue("feature", TEST);
            NegationFree(c) && RequiresTest(c) && !ReallyRequiresTest(c)
  {
    var c := KeyValue("feature", TEST);
    assert Compile(c) == Some([{TEST}]);
    assert Real(c, false, {TEST});
  }
}
