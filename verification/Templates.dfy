/**
 * Template variables of the request and response transformers: a chain of `strings.ReplaceAll`
 * calls, one variable after another, against one pass that substitutes all of them at once.
 */
module Templates {
  import opened Results

  predicate StartsWith(s: string, p: string) {
    |p| <= |s| && forall i :: 0 <= i < |p| ==> s[i] == p[i]
  }

  /** `strings.ReplaceAll` for a non-empty pattern: leftmost occurrences that do not overlap. */
  function ReplaceAll(s: string, pattern: string, replacement: string): string
    requires pattern != ""
    decreases |s|
  {
    if s == "" then ""
    else if StartsWith(s, pattern) then replacement + ReplaceAll(s[|pattern|..], pattern, replacement)
    else [s[0]] + ReplaceAll(s[1..], pattern, replacement)
  }

  datatype Variable = Variable(name: string, value: string)

  /** `{name}`: an opening brace, no brace inside, and a closing brace. */
  predicate Placeholder(p: string) {
    |p| >= 2 && p[0] == '{' && p[|p| - 1] == '}' && forall i :: 1 <= i < |p| - 1 ==> p[i] != '{' && p[i] != '}'
  }

  /** The variable whose placeholder stands at the front of `s`, if any. */
  function Front(s: string, vars: seq<Variable>): Option<Variable> {
    if vars == [] then None
    else if StartsWith(s, vars[0].name) then Some(vars[0])
    else Front(s, vars[1..])
  }

  predicate Placeholders(vars: seq<Variable>) {
    forall i :: 0 <= i < |vars| ==> Placeholder(vars[i].name)
  }

  /** One left-to-right pass: what stands in the template is replaced, what values bring in is not looked at. */
  function Substitute(s: string, vars: seq<Variable>): string
    requires Placeholders(vars)
    decreases |s|
  {
    if s == "" then ""
    else
      match Front(s, vars)
      case Some(v) =>
        FrontMatches(s, vars);
        v.value + Substitute(s[|v.name|..], vars)
      case None => [s[0]] + Substitute(s[1..], vars)
  }

  /** One step of the pass. */
  lemma SubstituteStep(s: string, vars: seq<Variable>)
    requires Placeholders(vars) && s != ""
    ensures Front(s, vars).None? ==> Substitute(s, vars) == [s[0]] + Substitute(s[1..], vars)
    ensures Front(s, vars).Some? ==>
              var v := Front(s, vars).value;
              |v.name| <= |s| && Substitute(s, vars) == v.value + Substitute(s[|v.name|..], vars)
  {
    FrontMatches(s, vars);
  }

  lemma {:induction false} FrontMatches(s: string, vars: seq<Variable>)
    ensures Front(s, vars).Some? ==> Front(s, vars).value in vars && StartsWith(s, Front(s, vars).value.name)
    ensures Front(s, vars).None? ==> forall v :: v in vars ==> !StartsWith(s, v.name)
  {
    if vars != [] {
      FrontMatches(s, vars[1..]);
      assert vars == [vars[0]] + vars[1..];
    }
  }

  /** The chain of calls, first variable first. */
  function ReplaceChain(s: string, vars: seq<Variable>): string
    requires Placeholders(vars)
  {
    if vars == [] then s
    else ReplaceAll(ReplaceChain(s, vars[..|vars| - 1]), vars[|vars| - 1].name, vars[|vars| - 1].value)
  }

  predicate Braceless(value: string) {
    forall i :: 0 <= i < |value| ==> value[i] != '{' && value[i] != '}'
  }

  /** The value occurs between the braces of the placeholder. */
  predicate Inside(value: string, name: string) {
    exists i :: 1 <= i && i + |value| < |name| && InsideAt(value, name, i)
  }

  predicate InsideAt(value: string, name: string, i: nat) {
    i + |value| < |name| && name[i..i + |value|] == value
  }

  predicate BracelessValues(vars: seq<Variable>) {
    forall i :: 0 <= i < |vars| ==> Braceless(vars[i].value)
  }

  /** No value occurs between the braces of a later placeholder. */
  predicate Separate(vars: seq<Variable>) {
    forall i, j :: 0 <= i < j < |vars| ==> !Inside(vars[i].value, vars[j].name)
  }

  // ---------------------------------------------------------------- one more call

  /** Nothing can be replaced inside a value, so a call goes past it. */
  lemma {:induction false} PastValue(w: string, rest: string, p: string, v: string)
    requires Placeholder(p) && forall i :: 0 <= i < |w| ==> w[i] != '{'
    ensures ReplaceAll(w + rest, p, v) == w + ReplaceAll(rest, p, v)
  {
    if w == "" {
      assert w + rest == rest;
    } else {
      var s := w + rest;
      assert s[0] == w[0] && s[1..] == w[1..] + rest;
      assert s[0] != p[0];
      PastValue(w[1..], rest, p, v);
      assert w == [w[0]] + w[1..];
    }
  }

  lemma FrontIsBrace(s: string, vars: seq<Variable>)
    requires Placeholders(vars) && s != "" && s[0] != '{'
    ensures Front(s, vars).None?
  {
    FrontMatches(s, vars);
  }

  /** The pass copies text that no placeholder starts in. */
  lemma {:induction false} CopiesBraceless(u: string, rest: string, vars: seq<Variable>)
    requires Placeholders(vars) && forall i :: 0 <= i < |u| ==> u[i] != '{'
    ensures Substitute(u + rest, vars) == u + Substitute(rest, vars)
  {
    if u == "" {
      assert u + rest == rest;
    } else {
      var s := u + rest;
      assert s[0] == u[0] && s[1..] == u[1..] + rest;
      FrontIsBrace(s, vars);
      SubstituteStep(s, vars);
      hide Substitute, Front;
      CopiesBraceless(u[1..], rest, vars);
      assert u == [u[0]] + u[1..];
    }
  }

  /**
   * A tail of a placeholder that the pass produces was in the template already: a value cannot bring it
   * in, because it has no closing brace to end it, and the whole of it would lie inside the placeholder.
   */
  lemma {:induction false} TailWasThere(u: string, x: string, vars: seq<Variable>, p: string)
    requires Placeholders(vars) && Placeholder(p)
    requires 1 <= |u| < |p| && u == p[|p| - |u|..]
    requires forall v :: v in vars ==> Braceless(v.value) && !Inside(v.value, p)
    requires StartsWith(Substitute(x, vars), u)
    ensures StartsWith(x, u)
    decreases |x|
  {
    if x != "" {
      hide Substitute, Front, Braceless, Inside, StartsWith;
      FrontMatches(x, vars);
      SubstituteStep(x, vars);
      match Front(x, vars) {
        case Some(v) =>
          ValueEndsTail(u, v.value, Substitute(x[|v.name|..], vars), p);
          assert false;
        case None =>
          var out := Substitute(x[1..], vars);
          assert ([x[0]] + out)[1..] == out;
          SplitFront([x[0]] + out, u);
          SplitFront(x, u);
          if |u| > 1 {
            TailWasThere(u[1..], x[1..], vars, p);
          }
      }
    }
  }

  lemma ValueEndsTail(u: string, w: string, rest: string, p: string)
    requires Placeholder(p) && 1 <= |u| < |p| && u == p[|p| - |u|..]
    requires Braceless(w) && !Inside(w, p)
    ensures !StartsWith(w + rest, u)
  {
    var at := |p| - |u|;
    if |u| <= |w| {
      assert (w + rest)[|u| - 1] == w[|u| - 1] && u[|u| - 1] == p[|p| - 1];
    } else if StartsWith(w + rest, u) {
      forall i | 0 <= i < |w| ensures p[at + i] == w[i] {
        assert u[i] == (w + rest)[i];
      }
      assert p[at..at + |w|] == w;
      assert InsideAt(w, p, at);
    }
  }

  /** One more call at the end of the chain is one more variable in the pass. */
  lemma {:induction false} OneMoreCall(s: string, vars: seq<Variable>, p: string, v: string)
    requires Placeholders(vars) && Placeholder(p)
    requires forall w :: w in vars ==> Braceless(w.value) && !Inside(w.value, p)
    ensures Placeholders(vars + [Variable(p, v)])
    ensures ReplaceAll(Substitute(s, vars), p, v) == Substitute(s, vars + [Variable(p, v)])
    decreases |s|
  {
    var all := vars + [Variable(p, v)];
    if s != "" {
      FrontMatches(s, vars);
      FrontSnoc(s, vars, Variable(p, v));
      match Front(s, vars) {
        case Some(q) =>
          OneMoreCall(s[|q.name|..], vars, p, v);
          PastValue(q.value, Substitute(s[|q.name|..], vars), p, v);
        case None =>
          if StartsWith(s, p) {
            var rest := s[|p|..];
            OneMoreCall(rest, vars, p, v);
            CopiesPlaceholder(s, vars, p);
            assert (p + Substitute(rest, vars))[|p|..] == Substitute(rest, vars);
          } else {
            OneMoreCall(s[1..], vars, p, v);
            NotMade(s, vars, p);
            assert ([s[0]] + Substitute(s[1..], vars))[1..] == Substitute(s[1..], vars);
          }
      }
    }
  }

  lemma {:induction false} FrontSnoc(s: string, vars: seq<Variable>, v: Variable)
    ensures Front(s, vars + [v]) == if Front(s, vars).Some? then Front(s, vars)
                                    else if StartsWith(s, v.name) then Some(v) else None
  {
    var all := vars + [v];
    if vars != [] {
      assert all[0] == vars[0] && all[1..] == vars[1..] + [v];
      FrontSnoc(s, vars[1..], v);
    } else {
      assert all == [v] && all[1..] == [];
    }
  }

  /** A placeholder of another variable goes through the pass unchanged. */
  lemma CopiesPlaceholder(s: string, vars: seq<Variable>, p: string)
    requires Placeholders(vars) && Placeholder(p) && StartsWith(s, p) && Front(s, vars).None?
    ensures Substitute(s, vars) == p + Substitute(s[|p|..], vars)
  {
    hide Substitute, Front;
    SubstituteStep(s, vars);
    assert s[1..] == p[1..] + s[|p|..];
    CopiesBraceless(p[1..], s[|p|..], vars);
    assert p == [p[0]] + p[1..];
  }

  /** The pass never makes a placeholder out of something else. */
  lemma NotMade(s: string, vars: seq<Variable>, p: string)
    requires Placeholders(vars) && Placeholder(p) && s != "" && !StartsWith(s, p) && Front(s, vars).None?
    requires forall w :: w in vars ==> Braceless(w.value) && !Inside(w.value, p)
    ensures !StartsWith(Substitute(s, vars), p)
  {
    hide Substitute, Front, Braceless, Inside;
    SubstituteStep(s, vars);
    var out := Substitute(s[1..], vars);
    if StartsWith(out, p[1..]) {
      TailWasThere(p[1..], s[1..], vars, p);
      SplitFront(s, p);
    }
    SplitFront([s[0]] + out, p);
    assert ([s[0]] + out)[1..] == out;
  }

  lemma SplitFront(s: string, p: string)
    requires s != "" && p != ""
    ensures StartsWith(s, p) <==> s[0] == p[0] && StartsWith(s[1..], p[1..])
  {
    if s[0] == p[0] && StartsWith(s[1..], p[1..]) {
      assert forall i :: 1 <= i < |p| ==> s[i] == s[1..][i - 1] && p[i] == p[1..][i - 1];
    }
  }

  // ---------------------------------------------------------------- the whole chain

  lemma {:induction false} NothingToDo(s: string)
    ensures Substitute(s, []) == s
  {
    if s != "" {
      NothingToDo(s[1..]);
      assert s == [s[0]] + s[1..];
    }
  }

  /** With such values, the chain of calls is one pass that substitutes all variables at once. */
  lemma {:induction false} ChainIsOnePass(s: string, vars: seq<Variable>)
    requires Placeholders(vars) && BracelessValues(vars) && Separate(vars)
    ensures ReplaceChain(s, vars) == Substitute(s, vars)
  {
    if vars == [] {
      NothingToDo(s);
    } else {
      var init, last := vars[..|vars| - 1], vars[|vars| - 1];
      assert vars == init + [last];
      ChainIsOnePass(s, init);
      forall w | w in init ensures Braceless(w.value) && !Inside(w.value, last.name) {
        var i :| 0 <= i < |init| && init[i] == w;
        assert vars[i] == w;
      }
      OneMoreCall(s, init, last.name, last.value);
    }
  }

  lemma OneFront(s: string, p: string, q: string)
    requires Placeholder(p) && Placeholder(q) && StartsWith(s, p) && StartsWith(s, q)
    ensures p == q
  {
    assert s[|p| - 1] == '}' && forall i :: 0 <= i < |p| - 1 ==> s[i] == p[i] != '}';
    assert s[|q| - 1] == '}' && forall i :: 0 <= i < |q| - 1 ==> s[i] == q[i] != '}';
    assert |p| == |q|;
  }

  predicate NamesDiffer(vars: seq<Variable>) {
    forall v, w :: v in vars && w in vars && v.name == w.name ==> v == w
  }

  lemma {:induction false} PassIgnoresOrder(s: string, vars: seq<Variable>, others: seq<Variable>)
    requires Placeholders(vars) && Placeholders(others) && NamesDiffer(vars)
    requires forall v :: v in vars <==> v in others
    ensures Substitute(s, vars) == Substitute(s, others)
    decreases |s|
  {
    if s != "" {
      FrontMatches(s, vars);
      FrontMatches(s, others);
      if Front(s, vars).Some? && Front(s, others).Some? {
        OneFront(s, Front(s, vars).value.name, Front(s, others).value.name);
      }
      assert Front(s, vars) == Front(s, others);
      SubstituteStep(s, vars);
      SubstituteStep(s, others);
      hide Substitute;
      PassIgnoresOrder(if Front(s, vars).Some? then s[|Front(s, vars).value.name|..] else s[1..], vars, others);
    }
  }

  /**
   * Nor does it matter in what order the calls are made, as long as both orders keep values out of later
   * placeholders.
   */
  lemma {:induction false} ChainIgnoresOrder(s: string, vars: seq<Variable>, others: seq<Variable>)
    requires Placeholders(vars) && BracelessValues(vars) && Separate(vars) && NamesDiffer(vars)
    requires Placeholders(others) && Separate(others) && forall v :: v in vars <==> v in others
    ensures ReplaceChain(s, vars) == ReplaceChain(s, others)
  {
    forall i | 0 <= i < |others| ensures Braceless(others[i].value) {
      assert others[i] in vars;
    }
    ChainIsOnePass(s, vars);
    ChainIsOnePass(s, others);
    PassIgnoresOrder(s, vars, others);
  }

  // ---------------------------------------------------------------- exactly when

  predicate DistinctNames(vars: seq<Variable>) {
    forall i, j :: 0 <= i < j < |vars| ==> vars[i].name != vars[j].name
  }

  /** A placeholder between two pieces of another. */
  function Spliced(a: string, p: string, b: string): string {
    ['{'] + (a + (p + (b + ['}'])))
  }

  /** A call for another variable goes past a placeholder. */
  lemma PastPlaceholder(p: string, rest: string, q: string, v: string)
    requires Placeholder(p) && Placeholder(q) && p != q
    ensures ReplaceAll(p + rest, q, v) == p + ReplaceAll(rest, q, v)
  {
    var s := p + rest;
    assert StartsWith(s, p);
    if StartsWith(s, q) { OneFront(s, p, q); }
    assert s[0] == p[0] && s[1..] == p[1..] + rest && p == [p[0]] + p[1..];
    PastValue(p[1..], rest, q, v);
  }

  lemma ReplaceFront(rest: string, p: string, v: string)
    requires p != ""
    ensures ReplaceAll(p + rest, p, v) == v + ReplaceAll(rest, p, v)
  {
    assert StartsWith(p + rest, p) && (p + rest)[|p|..] == rest;
  }

  lemma SplicedIsNoPlaceholder(a: string, p: string, b: string, q: string)
    requires Braceless(a) && Placeholder(p) && Placeholder(q)
    ensures !StartsWith(Spliced(a, p, b), q)
  {
    var t := Spliced(a, p, b);
    assert t[|a| + 1] == p[0] == '{';
    assert forall i :: 1 <= i <= |a| ==> t[i] == a[i - 1];
    assert q[|q| - 1] == '}' && forall i :: 1 <= i < |q| - 1 ==> q[i] != '{';
  }

  /** The only call that touches the text is the one for the inner placeholder. */
  lemma CallOnSpliced(a: string, p: string, b: string, q: string, v: string)
    requires Braceless(a) && Braceless(b) && Placeholder(p) && Placeholder(q)
    ensures ReplaceAll(Spliced(a, p, b), q, v) == Spliced(a, if p == q then v else p, b)
  {
    var t, tail := Spliced(a, p, b), b + ['}'];
    SplicedIsNoPlaceholder(a, p, b, q);
    assert t[0] == '{' && t[1..] == a + (p + tail);
    assert ReplaceAll(t, q, v) == ['{'] + ReplaceAll(t[1..], q, v);
    hide ReplaceAll;
    PastValue(a, p + tail, q, v);
    if p == q { ReplaceFront(tail, p, v); } else { PastPlaceholder(p, tail, q, v); }
    PastValue(tail, "", q, v);
    assert tail + "" == tail;
    assert ReplaceAll("", q, v) == "" by { NothingLeft(q, v); }
  }

  lemma NothingLeft(q: string, v: string)
    requires q != ""
    ensures ReplaceAll("", q, v) == ""
  {
  }

  /** The text before the n-th call: the k-th finishes the j-th placeholder, and the j-th replaces it. */
  function Stage(a: string, b: string, vars: seq<Variable>, k: nat, j: nat, n: nat): string
    requires k < j < |vars| && n <= |vars|
  {
    if n <= k then Spliced(a, vars[k].name, b) else if n <= j then vars[j].name else vars[j].value
  }

  lemma PlaceholderNotEmpty(q: string)
    requires Placeholder(q)
    ensures q != ""
  {
  }

  lemma NextStage(a: string, b: string, vars: seq<Variable>, k: nat, j: nat, n: nat)
    requires Placeholders(vars) && DistinctNames(vars) && BracelessValues(vars)
    requires Braceless(a) && Braceless(b) && k < j < |vars| && n < |vars|
    requires vars[j].name == Spliced(a, vars[k].value, b)
    ensures ReplaceAll(Stage(a, b, vars, k, j, n), vars[n].name, vars[n].value) == Stage(a, b, vars, k, j, n + 1)
  {
    hide ReplaceAll, Spliced, Placeholder;
    var q, w, name, v := vars[n].name, vars[n].value, vars[j].name, vars[j].value;
    assert Placeholder(q) && Placeholder(name) && Placeholder(vars[k].name);
    assert q != "" by { PlaceholderNotEmpty(q); }
    NothingLeft(q, w);
    assert name + "" == name && w + "" == w && v + "" == v;
    if n <= k {
      CallOnSpliced(a, vars[k].name, b, q, w);
    } else if n < j {
      PastPlaceholder(name, "", q, w);
    } else if n == j {
      ReplaceFront("", q, w);
    } else {
      PastValue(v, "", q, w);
    }
  }

  lemma {:induction false} ChainOnSpliced(a: string, b: string, vars: seq<Variable>, k: nat, j: nat, n: nat)
    requires Placeholders(vars) && DistinctNames(vars) && BracelessValues(vars)
    requires Braceless(a) && Braceless(b) && k < j < |vars| && n <= |vars|
    requires vars[j].name == Spliced(a, vars[k].value, b)
    ensures ReplaceChain(Spliced(a, vars[k].name, b), vars[..n]) == Stage(a, b, vars, k, j, n)
  {
    hide ReplaceAll, Spliced, Placeholder, DistinctNames, BracelessValues, Braceless;
    if n > 0 {
      ChainOnSpliced(a, b, vars, k, j, n - 1);
      assert vars[..n][..n - 1] == vars[..n - 1];
      hide Stage;
      NextStage(a, b, vars, k, j, n - 1);
    }
  }

  lemma SplicedFront(a: string, p: string, b: string, vars: seq<Variable>)
    requires Placeholders(vars) && Braceless(a) && Placeholder(p)
    ensures Front(Spliced(a, p, b), vars).None?
  {
    hide Spliced, StartsWith, Front;
    FrontMatches(Spliced(a, p, b), vars);
    forall v | v in vars ensures !StartsWith(Spliced(a, p, b), v.name) {
      SplicedIsNoPlaceholder(a, p, b, v.name);
    }
  }

  lemma InnerFront(tail: string, vars: seq<Variable>, k: nat)
    requires Placeholders(vars) && DistinctNames(vars) && k < |vars|
    ensures Front(vars[k].name + tail, vars) == Some(vars[k])
  {
    var inner := vars[k].name + tail;
    assert StartsWith(inner, vars[k].name) && vars[k] in vars;
    hide StartsWith, Front;
    FrontMatches(inner, vars);
    var found := Front(inner, vars).value;
    OneFront(inner, vars[k].name, found.name);
    var i :| 0 <= i < |vars| && vars[i] == found;
    assert i == k;
  }

  /** The pass replaces the inner placeholder and looks no further. */
  lemma PassOnSpliced(a: string, b: string, vars: seq<Variable>, k: nat)
    requires Placeholders(vars) && DistinctNames(vars) && Braceless(a) && Braceless(b) && k < |vars|
    ensures Substitute(Spliced(a, vars[k].name, b), vars) == Spliced(a, vars[k].value, b)
  {
    hide Substitute, Front, Placeholder, DistinctNames;
    var p, tail := vars[k].name, b + ['}'];
    var t, inner := Spliced(a, p, b), p + tail;
    SplicedFront(a, p, b, vars);
    InnerFront(tail, vars, k);
    SubstituteStep(t, vars);
    PlaceholderNotEmpty(p);
    SubstituteStep(inner, vars);
    assert t[1..] == a + inner && t[0] == '{' && inner[|p|..] == tail;
    CopiesBraceless(a, inner, vars);
    CopiesBraceless(tail, "", vars);
    assert tail + "" == tail;
    NothingToPass(vars);
  }

  lemma NothingToPass(vars: seq<Variable>)
    requires Placeholders(vars)
    ensures Substitute("", vars) == ""
  {
  }

  lemma SplitAround(v: string, name: string, i: nat) returns (a: string, b: string)
    requires Placeholder(name) && 1 <= i && i + |v| < |name| && InsideAt(v, name, i)
    ensures Braceless(a) && Braceless(b) && name == Spliced(a, v, b)
  {
    var rest := name[i + |v|..];
    a, b := name[1..i], rest[..|rest| - 1];
    assert rest == b + ['}'];
    assert name[i..] == v + rest;
    assert name[1..] == a + name[i..];
    assert name == ['{'] + name[1..];
    forall m | 0 <= m < |b| ensures b[m] != '{' && b[m] != '}' { assert b[m] == name[i + |v| + m]; }
  }

  /**
   * Values without braces are not enough: one that occurs between the braces of a later placeholder
   * completes it in some template, and the chain then replaces what the pass leaves alone.
   */
  lemma {:induction false} BracelessIsNotEnough(vars: seq<Variable>, k: nat, j: nat) returns (s: string)
    requires Placeholders(vars) && DistinctNames(vars) && BracelessValues(vars)
    requires k < j < |vars| && Inside(vars[k].value, vars[j].name)
    ensures ReplaceChain(s, vars) == vars[j].value
    ensures Substitute(s, vars) == vars[j].name != vars[j].value
  {
    hide ReplaceChain, Substitute, Spliced, InsideAt, DistinctNames;
    var v, name := vars[k].value, vars[j].name;
    var i :| 1 <= i && i + |v| < |name| && InsideAt(v, name, i);
    var a, b := SplitAround(v, name, i);
    assert vars[..|vars|] == vars;
    s := Spliced(a, vars[k].name, b);
    ChainOnSpliced(a, b, vars, k, j, |vars|);
    PassOnSpliced(a, b, vars, k);
    assert name[0] == '{' && Braceless(vars[j].value);
  }

  /** For every template the chain of calls is the simultaneous substitution. */
  ghost predicate AlwaysOnePass(vars: seq<Variable>)
    requires Placeholders(vars)
  {
    forall s: string :: ReplaceChain(s, vars) == Substitute(s, vars)
  }

  /**
   * For values without braces, and a chain of any length: the chain is the simultaneous substitution for
   * every template exactly when no value occurs between the braces of a later placeholder.
   */
  lemma {:induction false} OnePassExactlyWhen(vars: seq<Variable>)
    requires Placeholders(vars) && DistinctNames(vars) && BracelessValues(vars)
    ensures AlwaysOnePass(vars) <==> Separate(vars)
  {
    if Separate(vars) {
      forall s: string ensures ReplaceChain(s, vars) == Substitute(s, vars) {
        ChainIsOnePass(s, vars);
      }
    } else {
      var k, j :| 0 <= k < j < |vars| && Inside(vars[k].value, vars[j].name);
      var s := BracelessIsNotEnough(vars, k, j);
      assert ReplaceChain(s, vars) != Substitute(s, vars);
    }
  }

  // ---------------------------------------------------------------- the variables of the gateway

  function OrgName(): string { "{org_id}" }

  function UserName(): string { "{user_id}" }

  function AppName(): string { "{app_id}" }

  function StatusName(): string { "{status_code}" }

  lemma GatewayNames()
    ensures Placeholder(OrgName()) && Placeholder(UserName()) && Placeholder(AppName()) && Placeholder(StatusName())
    ensures OrgName() != UserName() && OrgName() != AppName() && OrgName() != StatusName()
    ensures UserName() != AppName() && UserName() != StatusName() && AppName() != StatusName()
  {
    assert OrgName()[1] == 'o' && UserName()[1] == 'u' && AppName()[1] == 'a' && StatusName()[1] == 's';
  }

  /** The organization's value stands in `{user_id}` between `a` and `b`. */
  lemma Collides(a: string, org: string, b: string, user: string, template: string)
    requires Braceless(a) && Braceless(org) && Braceless(b) && Braceless(user)
    requires template == Spliced(a, OrgName(), b) && UserName() == Spliced(a, org, b)
    ensures var vars := [Variable(OrgName(), org), Variable(UserName(), user)];
            Placeholders(vars) && ReplaceChain(template, vars) == user && Substitute(template, vars) == UserName()
  {
    GatewayNames();
    var vars := [Variable(OrgName(), org), Variable(UserName(), user)];
    hide OrgName, UserName, Spliced, ReplaceAll, Placeholder;
    assert vars[..2] == vars;
    ChainOnSpliced(a, b, vars, 0, 1, 2);
    PassOnSpliced(a, b, vars, 0);
  }

  lemma CollidingTemplates()
    ensures "{{org_id}_id}" == Spliced("", OrgName(), "_id") && "{us{org_id}_id}" == Spliced("us", OrgName(), "_id")
    ensures "{user_id}" == UserName() == Spliced("", "user", "_id") == Spliced("us", "er", "_id")
  {
  }

  /** With an organization called "user", or "er", the gateway's own names collide in these templates. */
  lemma {:induction false} GatewayNamesCanCollide(user: string)
    requires Braceless(user)
    ensures var vars := [Variable(OrgName(), "user"), Variable(UserName(), user)];
            Placeholders(vars) && ReplaceChain("{{org_id}_id}", vars) == user &&
                Substitute("{{org_id}_id}", vars) == "{user_id}"
    ensures var vars := [Variable(OrgName(), "er"), Variable(UserName(), user)];
            Placeholders(vars) && ReplaceChain("{us{org_id}_id}", vars) == user &&
                Substitute("{us{org_id}_id}", vars) == "{user_id}"
  {
    hide OrgName, UserName, Spliced, Placeholder, ReplaceChain, Substitute;
    CollidingTemplates();
    Collides("", "user", "_id", user, "{{org_id}_id}");
    Collides("us", "er", "_id", user, "{us{org_id}_id}");
  }

  predicate Hex(c: char) {
    '0' <= c <= '9' || 'a' <= c <= 'f'
  }

  /** Section 4 of RFC 9562: 8-4-4-4-12 hexadecimal digits. */
  predicate IsUuid(s: string) {
    |s| == 36 && forall i :: 0 <= i < 36 ==> if i in {8, 13, 18, 23} then s[i] == '-' else Hex(s[i])
  }

  /** An example of section 4 of RFC 9562 is one. */
  lemma UuidExample()
    ensures IsUuid("f81d4fae-7dec-11d0-a765-00a0c91e6bf6")
  {
  }

  function Digit(n: nat): char
    requires n < 10
  {
    ('0' as int + n) as char
  }

  function Digits(n: nat): string {
    if n < 10 then [Digit(n)] else Digits(n / 10) + [Digit(n % 10)]
  }

  /** `%d` */
  function Decimal(n: int): string {
    if n < 0 then "-" + Digits(-n) else Digits(n)
  }

  /** The number a string of decimal digits stands for. */
  function Number(digits: string): nat
    requires forall i :: 0 <= i < |digits| ==> '0' <= digits[i] <= '9'
  {
    if digits == "" then 0
    else
      var last := digits[|digits| - 1];
      assert '0' <= last;
      10 * Number(digits[..|digits| - 1]) + (last as int - '0' as int)
  }

  /** The digits stand for the number, and there is no leading zero. */
  lemma {:induction false} DigitsAreTheNumber(n: nat)
    ensures (forall i :: 0 <= i < |Digits(n)| ==> '0' <= Digits(n)[i] <= '9') && Number(Digits(n)) == n
    ensures Digits(n) != "" && (Digits(n)[0] == '0' ==> n == 0)
  {
    var digits := Digits(n);
    if n < 10 {
      assert digits[..0] == "";
    } else {
      DigitsAreTheNumber(n / 10);
      assert digits[..|digits| - 1] == Digits(n / 10);
    }
  }

  /** `%d` of a status code, and of a negative number. */
  lemma DecimalIsTheNumber(n: nat)
    ensures (forall i :: 0 <= i < |Decimal(n)| ==> '0' <= Decimal(n)[i] <= '9') && Number(Decimal(n)) == n
    ensures Decimal(n) != "" && (Decimal(n)[0] == '0' ==> n == 0)
    ensures n > 0 ==> Decimal(-(n as int)) == "-" + Decimal(n)
  {
    DigitsAreTheNumber(n);
  }

  lemma {:induction false} AllDigits(n: nat)
    ensures Digits(n) != [] && forall i :: 0 <= i < |Digits(n)| ==> '0' <= Digits(n)[i] <= '9'
  {
    if n >= 10 { AllDigits(n / 10); }
  }

  /** The variables of a request, those present in its context only. */
  function Context(org: Option<string>, user: Option<string>, app: Option<string>): seq<Variable> {
    One(OrgName(), org) + One(UserName(), user) + One(AppName(), app)
  }

  function One(name: string, value: Option<string>): seq<Variable> {
    if value.Some? then [Variable(name, value.value)] else []
  }

  function WithStatus(org: Option<string>, user: Option<string>, app: Option<string>, status: int): seq<Variable> {
    Context(org, user, app) + [Variable(StatusName(), Decimal(status))]
  }

  /** Each name stands for its own value, when there is one. */
  lemma {:induction false} ContextBinds(org: Option<string>, user: Option<string>, app: Option<string>, status: int,
                                        v: Variable)
    ensures v in WithStatus(org, user, app, status) <==>
              || (v.name == "{org_id}" && org == Some(v.value))
              || (v.name == "{user_id}" && user == Some(v.value))
              || (v.name == "{app_id}" && app == Some(v.value))
              || (v.name == "{status_code}" && v.value == Decimal(status))
    ensures v in Context(org, user, app) <==>
              || (v.name == "{org_id}" && org == Some(v.value))
              || (v.name == "{user_id}" && user == Some(v.value))
              || (v.name == "{app_id}" && app == Some(v.value))
  {
    NamesAreThese();
    hide OrgName, UserName, AppName, StatusName, Decimal;
  }

  lemma NamesAreThese()
    ensures OrgName() == "{org_id}" && UserName() == "{user_id}"
    ensures AppName() == "{app_id}" && StatusName() == "{status_code}"
  {
  }

  lemma ContextPlaceholders(org: Option<string>, user: Option<string>, app: Option<string>, status: int)
    ensures Placeholders(Context(org, user, app)) && Placeholders(WithStatus(org, user, app, status))
    ensures NamesDiffer(WithStatus(org, user, app, status))
  {
    hide OrgName, UserName, AppName, StatusName, Placeholder, Decimal;
    GatewayNames();
  }

  predicate InName(c: char) {
    'a' <= c <= 'z' || c == '_' || c == '{' || c == '}'
  }

  lemma NamesAreLetters(c: char)
    requires !InName(c)
    ensures c !in OrgName() && c !in UserName() && c !in AppName() && c !in StatusName()
  {
  }

  /** A value with a character that no name has. */
  predicate Foreign(value: string) {
    exists i :: 0 <= i < |value| && !InName(value[i])
  }

  lemma {:induction false} ForeignIsOutside(value: string, org: Option<string>, user: Option<string>,
                                            app: Option<string>, status: int)
    requires Foreign(value)
    ensures forall v :: v in WithStatus(org, user, app, status) ==> !Inside(value, v.name)
  {
    var k :| 0 <= k < |value| && !InName(value[k]);
    NamesAreLetters(value[k]);
    forall v | v in WithStatus(org, user, app, status) ensures !Inside(value, v.name) {
      NameIsOne(v, org, user, app, status);
      NotInside(value, v.name, k);
    }
  }

  lemma NameIsOne(v: Variable, org: Option<string>, user: Option<string>, app: Option<string>, status: int)
    requires v in WithStatus(org, user, app, status)
    ensures v.name in {OrgName(), UserName(), AppName(), StatusName()}
  {
    hide OrgName, UserName, AppName, StatusName, Decimal;
  }

  lemma NotInside(value: string, name: string, k: nat)
    requires k < |value| && value[k] !in name
    ensures !Inside(value, name)
  {
    forall i: nat | i + |value| < |name| ensures !InsideAt(value, name, i) {
      assert name[i..i + |value|][k] == name[i + k] && name[i + k] in name;
    }
  }

  lemma UuidIsForeign(value: string)
    requires IsUuid(value)
    ensures Foreign(value) && Braceless(value)
  {
    assert !InName(value[8]);
  }

  lemma DecimalIsForeign(n: int)
    ensures Foreign(Decimal(n)) && Braceless(Decimal(n))
  {
    AllDigits(if n < 0 then -n else n);
    var d := Decimal(n);
    assert !InName(d[|d| - 1]);
  }

  /** No value occurs between the braces of any placeholder, its own included. */
  predicate Apart(vars: seq<Variable>) {
    forall v, w :: v in vars && w in vars ==> !Inside(v.value, w.name)
  }

  /** UUID strings and status codes stay out of these placeholders. */
  lemma {:induction false} GatewayValuesApart(org: Option<string>, user: Option<string>, app: Option<string>,
                                              status: int)
    requires org.Some? ==> IsUuid(org.value)
    requires user.Some? ==> IsUuid(user.value)
    requires app.Some? ==> IsUuid(app.value)
    ensures BracelessValues(WithStatus(org, user, app, status)) && Apart(WithStatus(org, user, app, status))
  {
    var vars := WithStatus(org, user, app, status);
    DecimalIsForeign(status);
    if org.Some? { UuidIsForeign(org.value); }
    if user.Some? { UuidIsForeign(user.value); }
    if app.Some? { UuidIsForeign(app.value); }
    hide OrgName, UserName, AppName, StatusName, Decimal, Inside, Foreign, Braceless, IsUuid;
    forall v | v in vars ensures Foreign(v.value) && Braceless(v.value) {}
    hide WithStatus;
    forall v, w | v in vars && w in vars ensures !Inside(v.value, w.name) {
      ForeignIsOutside(v.value, org, user, app, status);
    }
  }

  /** The request transformer's `transformTemplate`. */
  method TransformRequest(template: string, org: Option<string>, user: Option<string>, app: Option<string>)
      returns (result: string)
    ensures Placeholders(Context(org, user, app)) && result == ReplaceChain(template, Context(org, user, app))
    ensures BracelessValues(Context(org, user, app)) && Separate(Context(org, user, app)) ==>
          result == Substitute(template, Context(org, user, app))
  {
    GatewayNames();
    hide OrgName, UserName, AppName, StatusName, Placeholder, ReplaceChain, ReplaceAll, Substitute, BracelessValues;
    hide Separate;
    result := template;
    ghost var vars: seq<Variable> := [];
    EmptyChain(template);
    if org.Some? {
      result := ReplaceAll(result, OrgName(), org.value);
      ChainSnoc(template, vars, Variable(OrgName(), org.value));
      vars := vars + [Variable(OrgName(), org.value)];
    }
    if user.Some? {
      result := ReplaceAll(result, UserName(), user.value);
      ChainSnoc(template, vars, Variable(UserName(), user.value));
      vars := vars + [Variable(UserName(), user.value)];
    }
    if app.Some? {
      result := ReplaceAll(result, AppName(), app.value);
      ChainSnoc(template, vars, Variable(AppName(), app.value));
      vars := vars + [Variable(AppName(), app.value)];
    }
    assert vars == Context(org, user, app);
    if BracelessValues(vars) && Separate(vars) { ChainIsOnePass(template, vars); }
  }

  lemma EmptyChain(s: string)
    ensures ReplaceChain(s, []) == s
  {
  }

  lemma ChainSnoc(s: string, vars: seq<Variable>, v: Variable)
    requires Placeholders(vars) && Placeholder(v.name)
    ensures Placeholders(vars + [v])
    ensures ReplaceChain(s, vars + [v]) == ReplaceAll(ReplaceChain(s, vars), v.name, v.value)
  {
    assert (vars + [v])[..|vars|] == vars;
  }

  /** The response transformer's `transformTemplate`: the same, and then the status code. */
  method TransformResponse(template: string, org: Option<string>, user: Option<string>, app: Option<string>,
                           status: int)
      returns (result: string)
    ensures var vars := WithStatus(org, user, app, status);
            && Placeholders(vars) && result == ReplaceChain(template, vars)
            && (BracelessValues(vars) && Separate(vars) ==> result == Substitute(template, vars))
  {
    GatewayNames();
    hide OrgName, UserName, AppName, StatusName, Placeholder, ReplaceChain, ReplaceAll, Substitute, BracelessValues;
    hide Separate, Context, Decimal;
    result := TransformRequest(template, org, user, app);
    result := ReplaceAll(result, StatusName(), Decimal(status));
    ChainSnoc(template, Context(org, user, app), Variable(StatusName(), Decimal(status)));
    ghost var vars := WithStatus(org, user, app, status);
    if BracelessValues(vars) && Separate(vars) { ChainIsOnePass(template, vars); }
  }

  /** What the gateway puts in the context makes the chain one simultaneous substitution, in any order of calls. */
  lemma GatewayTemplates(template: string, org: Option<string>, user: Option<string>, app: Option<string>, status: int,
                         others: seq<Variable>)
    requires org.Some? ==> IsUuid(org.value)
    requires user.Some? ==> IsUuid(user.value)
    requires app.Some? ==> IsUuid(app.value)
    requires Placeholders(others) && forall v :: v in others <==> v in WithStatus(org, user, app, status)
    ensures var vars := WithStatus(org, user, app, status);
            Placeholders(vars) && ReplaceChain(template, vars) == Substitute(template, vars) ==
                ReplaceChain(template, others)
  {
    hide WithStatus, ReplaceChain, Substitute, BracelessValues, Separate, NamesDiffer, Placeholders, IsUuid;
    var vars := WithStatus(org, user, app, status);
    ContextPlaceholders(org, user, app, status);
    GatewayValuesApart(org, user, app, status);
    ChainIsOnePass(template, vars);
    ChainIgnoresOrder(template, vars, others);
  }
}
