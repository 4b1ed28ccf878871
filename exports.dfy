/**
  The re-export statements the obfuscator appends so that the public names of
  a module (obfuscator.py:275-276) or of a class body (obfuscator.py:218-219)
  stay reachable under their original spelling: `name = alias` for every
  recorded (name, alias) pair.

  To say what those statements achieve, the module carries the meaning of the
  two statement forms involved over an environment of bindings. The source
  emits one assignment per pair, run in order; that order matters once an
  original name coincides with another name's alias, and a simultaneous
  (tuple) assignment is what the rebinding evidently intends.
 */
module Exports {
  import opened Syntax

  /** The bindings of a namespace; the bound values are abstract. */
  type Env = map<string, int>

  type Pairs = seq<(string, string)>

  /** The names the rebinding re-exports. */
  function Exported(pairs: Pairs): seq<string> {
    seq(|pairs|, i requires 0 <= i < |pairs| => pairs[i].0)
  }

  /** The aliases it reads them from. */
  function Sources(pairs: Pairs): seq<string> {
    seq(|pairs|, i requires 0 <= i < |pairs| => pairs[i].1)
  }

  lemma ExportedConcat(a: Pairs, b: Pairs)
    ensures Exported(a + b) == Exported(a) + Exported(b)
  {
  }

  function Names(ids: seq<string>): seq<Node> {
    seq(|ids|, i requires 0 <= i < |ids| => Name(ids[i]))
  }

  // ---------------------------------------------------------------------------
  // Meaning of the emitted statements
  // ---------------------------------------------------------------------------

  /** The values of a tuple of names, or None when one is unbound (NameError). */
  function LoadAll(env: Env, ns: seq<Node>): (r: Option<seq<int>>)
    ensures r.Some? ==> |r.value| == |ns|
  {
    if ns == [] then Some([])
    else if ns[0].Name? && ns[0].id in env then
      match LoadAll(env, ns[1..])
      case None => None
      case Some(rest) => Some([env[ns[0].id]] + rest)
    else None
  }

  /** Tuple-unpacking assignment: the targets are bound left to right. */
  function StoreAll(env: Env, ts: seq<Node>, vals: seq<int>): Option<Env>
    requires |ts| == |vals|
    decreases |ts|
  {
    if ts == [] then Some(env)
    else if ts[0].Name? then StoreAll(env[ts[0].id := vals[0]], ts[1..], vals[1..])
    else None
  }

  /** One statement of the two forms the rebinding uses: `n = a` and `(n, ...) = (a, ...)`. */
  function Exec(env: Env, s: Node): Option<Env> {
    if s.Assign? && |s.targets| == 1 then
      var t := s.targets[0];
      if t.Name? && s.value.Name? then
        if s.value.id in env then Some(env[t.id := env[s.value.id]]) else None
      else if t.Tuple? && s.value.Tuple? && |t.elts| == |s.value.elts| then
        match LoadAll(env, s.value.elts)
        case None => None
        case Some(vals) => StoreAll(env, t.elts, vals)
      else None
    else None
  }

  function ExecAll(env: Env, ss: seq<Node>): Option<Env>
    decreases |ss|
  {
    if ss == [] then Some(env)
    else match Exec(env, ss[0])
      case None => None
      case Some(env') => ExecAll(env', ss[1..])
  }

  // ---------------------------------------------------------------------------
  // What the rebinding is meant to achieve
  // ---------------------------------------------------------------------------

  /** Each original name receives the value its alias held before the rebinding. */
  function Reexported(orig: Env, cur: Env, pairs: Pairs): Env
    requires forall p :: p in pairs ==> p.1 in orig
    decreases |pairs|
  {
    if pairs == [] then cur else Reexported(orig, cur[pairs[0].0 := orig[pairs[0].1]], pairs[1..])
  }

  /** A name is always paired with the same alias (the registry never changes an alias). */
  predicate Consistent(pairs: Pairs) {
    forall i, j :: 0 <= i < |pairs| && 0 <= j < |pairs| && pairs[i].0 == pairs[j].0 ==> pairs[i].1 == pairs[j].1
  }

  predicate Bound(env: Env, pairs: Pairs) {
    forall p :: p in pairs ==> p.1 in env
  }

  /** The rebinding binds exactly the exported names on top of what was bound. */
  lemma {:induction false} ReexportedKeys(orig: Env, cur: Env, pairs: Pairs)
    requires Bound(orig, pairs)
    ensures Reexported(orig, cur, pairs).Keys == cur.Keys + (set p | p in pairs :: p.0)
    decreases |pairs|
  {
    if pairs != [] {
      var rest := pairs[1..];
      ReexportedKeys(orig, cur[pairs[0].0 := orig[pairs[0].1]], rest);
      assert (set p | p in pairs :: p.0) == {pairs[0].0} + (set p | p in rest :: p.0) by {
        assert pairs == [pairs[0]] + rest;
      }
    }
  }

  /** A name the rebinding does not export keeps its value. */
  lemma {:induction false} ReexportedOthers(orig: Env, cur: Env, pairs: Pairs, k: string)
    requires Bound(orig, pairs) && k in cur && k !in Exported(pairs)
    ensures k in Reexported(orig, cur, pairs) && Reexported(orig, cur, pairs)[k] == cur[k]
    decreases |pairs|
  {
    if pairs != [] {
      assert Exported(pairs) == [pairs[0].0] + Exported(pairs[1..]);
      ReexportedOthers(orig, cur[pairs[0].0 := orig[pairs[0].1]], pairs[1..], k);
    }
  }

  /** With consistent pairs every exported name ends up with its alias's original value. */
  lemma {:induction false} ReexportedAt(orig: Env, cur: Env, pairs: Pairs, i: nat)
    requires Bound(orig, pairs) && Consistent(pairs) && i < |pairs|
    ensures pairs[i].0 in Reexported(orig, cur, pairs)
    ensures Reexported(orig, cur, pairs)[pairs[i].0] == orig[pairs[i].1]
    decreases |pairs|
  {
    var rest := pairs[1..];
    var cur' := cur[pairs[0].0 := orig[pairs[0].1]];
    assert Consistent(rest) by {
      forall i, j | 0 <= i < |rest| && 0 <= j < |rest| && rest[i].0 == rest[j].0
        ensures rest[i].1 == rest[j].1
      {
        assert rest[i] == pairs[i + 1] && rest[j] == pairs[j + 1];
      }
    }
    if i > 0 {
      assert pairs[i] == rest[i - 1];
      ReexportedAt(orig, cur', rest, i - 1);
    } else if pairs[0].0 in Exported(rest) {
      var j :| 0 <= j < |rest| && Exported(rest)[j] == pairs[0].0;
      assert rest[j] == pairs[j + 1];
      ReexportedAt(orig, cur', rest, j);
    } else {
      ReexportedOthers(orig, cur', rest, pairs[0].0);
    }
  }

  /** With consistent pairs every exported name ends up with its alias's value, and nothing else changes. */
  lemma ReexportedValues(orig: Env, cur: Env, pairs: Pairs)
    requires Bound(orig, pairs) && Consistent(pairs)
    ensures var r := Reexported(orig, cur, pairs);
      && r.Keys == cur.Keys + (set p | p in pairs :: p.0)
      && (forall i :: 0 <= i < |pairs| ==> r[pairs[i].0] == orig[pairs[i].1])
      && (forall k :: k in cur && k !in Exported(pairs) ==> r[k] == cur[k])
  {
    ReexportedKeys(orig, cur, pairs);
    forall i | 0 <= i < |pairs|
      ensures Reexported(orig, cur, pairs)[pairs[i].0] == orig[pairs[i].1]
    {
      ReexportedAt(orig, cur, pairs, i);
    }
    forall k | k in cur && k !in Exported(pairs)
      ensures Reexported(orig, cur, pairs)[k] == cur[k]
    {
      ReexportedOthers(orig, cur, pairs, k);
    }
  }

  // ---------------------------------------------------------------------------
  // As written: one `name = alias` per pair, in order
  // ---------------------------------------------------------------------------

  /** The statements obfuscator.py:218-219 and 275-276 append: `name = alias` per pair. */
  function Rebindings(pairs: Pairs): seq<Node> {
    seq(|pairs|, i requires 0 <= i < |pairs| => Rebinding(pairs[i].0, pairs[i].1))
  }

  /** One statement per pair, in the pairs' order, each naming the pair's name and alias. */
  lemma RebindingsShape(pairs: Pairs)
    ensures |Rebindings(pairs)| == |pairs|
    ensures forall i :: 0 <= i < |pairs| ==>
      Rebindings(pairs)[i].Assign? && Rebindings(pairs)[i].targets == [Name(pairs[i].0)]
      && Rebindings(pairs)[i].value == Name(pairs[i].1)
    ensures forall a, b :: Rebindings(a + b) == Rebindings(a) + Rebindings(b)
  {
  }

  /** No pair re-exports a name that a later pair still reads as an alias. */
  predicate NoForwardClobber(pairs: Pairs) {
    forall i, j :: 0 <= i < j < |pairs| ==> pairs[i].0 != pairs[j].1
  }

  /** Run in order, the statements reach the intended bindings when no name clobbers a later alias. */
  lemma {:induction false} RebindingsSound(orig: Env, cur: Env, pairs: Pairs)
    requires Bound(orig, pairs) && NoForwardClobber(pairs)
    requires forall p :: p in pairs ==> p.1 in cur && cur[p.1] == orig[p.1]
    ensures ExecAll(cur, Rebindings(pairs)) == Some(Reexported(orig, cur, pairs))
    decreases |pairs|
  {
    if pairs != [] {
      var rest := pairs[1..];
      var cur' := cur[pairs[0].0 := orig[pairs[0].1]];
      assert Rebindings(pairs)[1..] == Rebindings(rest);
      forall p | p in rest
        ensures p.1 in cur' && cur'[p.1] == orig[p.1]
      {
        var j :| 0 <= j < |rest| && rest[j] == p;
        assert pairs[j + 1] == p;
      }
      RebindingsSound(orig, cur', rest);
    }
  }

  /**
    `b = 1` then `a = 2` at module level: a fresh run names `b` 'a' and `a` 'b',
    so the rewritten module binds a = 1, b = 2 and then appends `b = a; a = b`.
    The exported `a` ends up 1, not the 2 it was assigned.
   */
  lemma RebindingsClobber()
    ensures var env := map["a" := 1, "b" := 2];
      var pairs := [("b", "a"), ("a", "b")];
      && ExecAll(env, Rebindings(pairs)) == Some(map["a" := 1, "b" := 1])
      && ExecAll(env, Rebindings(pairs)).value["a"] != env["b"]
  {
    var env := map["a" := 1, "b" := 2];
    var pairs := [("b", "a"), ("a", "b")];
    var ss := Rebindings(pairs);
    var after := map["a" := 1, "b" := 1];
    assert ss[0] == Assign([Name("b")], Name("a"));
    assert ss[1] == Assign([Name("a")], Name("b"));
    assert env["b" := env["a"]] == after;
    assert Exec(env, ss[0]) == Some(after);
    assert after["a" := after["b"]] == after;
    assert Exec(after, ss[1]) == Some(after);
    assert ss[1..][1..] == [];
    assert ExecAll(after, ss[1..][1..]) == Some(after);
    assert ExecAll(after, ss[1..]) == Some(after);
    assert ExecAll(env, ss) == Some(after);
  }

  // ---------------------------------------------------------------------------
  // Corrected: one simultaneous assignment
  // ---------------------------------------------------------------------------

  /**
    `(name1, name2, ...) = (alias1, alias2, ...)`: every alias is read before
    any name is bound. No statement when there is nothing to export, since
    Python 2 refuses `() = ()`.
   */
  function SimultaneousRebinding(pairs: Pairs): seq<Node> {
    if pairs == [] then []
    else [Assign([Tuple(Names(Exported(pairs)))], Tuple(Names(Sources(pairs))))]
  }

  /** The values the aliases hold, in the pairs' order. */
  function SourceValues(env: Env, pairs: Pairs): (r: seq<int>)
    requires Bound(env, pairs)
    ensures |r| == |pairs|
    decreases |pairs|
  {
    if pairs == [] then [] else [env[pairs[0].1]] + SourceValues(env, pairs[1..])
  }

  lemma {:induction false} LoadAllSources(env: Env, pairs: Pairs)
    requires Bound(env, pairs)
    ensures LoadAll(env, Names(Sources(pairs))) == Some(SourceValues(env, pairs))
    decreases |pairs|
  {
    if pairs != [] {
      var ns := Names(Sources(pairs));
      assert ns[0] == Name(pairs[0].1) && pairs[0] in pairs;
      assert ns[1..] == Names(Sources(pairs[1..]));
      LoadAllSources(env, pairs[1..]);
    }
  }

  lemma {:induction false} StoreAllExported(orig: Env, cur: Env, pairs: Pairs)
    requires Bound(orig, pairs)
    ensures StoreAll(cur, Names(Exported(pairs)), SourceValues(orig, pairs)) == Some(Reexported(orig, cur, pairs))
    decreases |pairs|
  {
    if pairs != [] {
      assert Names(Exported(pairs))[1..] == Names(Exported(pairs[1..]));
      StoreAllExported(orig, cur[pairs[0].0 := orig[pairs[0].1]], pairs[1..]);
    }
  }

  /** The simultaneous assignment always reaches the intended bindings, whatever the names. */
  lemma SimultaneousRebindingSound(env: Env, pairs: Pairs)
    requires Bound(env, pairs)
    ensures ExecAll(env, SimultaneousRebinding(pairs)) == Some(Reexported(env, env, pairs))
  {
    if pairs != [] {
      LoadAllSources(env, pairs);
      StoreAllExported(env, env, pairs);
    }
  }

  /** Where the in-order statements are right, the simultaneous assignment agrees with them. */
  lemma SimultaneousAgrees(env: Env, pairs: Pairs)
    requires Bound(env, pairs) && NoForwardClobber(pairs)
    ensures ExecAll(env, SimultaneousRebinding(pairs)) == ExecAll(env, Rebindings(pairs))
  {
    SimultaneousRebindingSound(env, pairs);
    RebindingsSound(env, env, pairs);
  }
}
