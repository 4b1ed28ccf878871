/**
  The state one run of the tool shares between the files it processes: the
  alias generator's digit buffer (the class attribute `__current__`) and the
  symbol registry, the name-to-alias dict the command line creates once and
  hands to every `Obfuscator` (obfuscator.py:15, 20, 285, 312).
 */
module Registry {
  import opened Aliases

  class RunContext {
    /** The digit buffer, least significant digit first. */
    var current: string
    /** The symbol registry: original name to alias, shared by every file of the run. */
    var names: map<string, string>
    /** Every alias drawn so far, kept or discarded. */
    ghost var Issued: set<string>
    /** The words `keyword.iskeyword` accepts (obfuscator.py:52): `Keywords`. */
    const keywords: set<string>

    /** Every alias drawn so far precedes, in shortlex order, the one the buffer will yield next. */
    ghost predicate GeneratorValid()
      reads this
    {
      && IsAlias(current)
      && forall a :: a in Issued ==> IsAlias(a) && ShortLexLess(a, Reverse(current))
    }

    /** The registry gives distinct names distinct aliases, all drawn from the generator, none a keyword. */
    ghost predicate Valid()
      reads this
    {
      && GeneratorValid()
      && (forall n :: n in names ==> names[n] in Issued && names[n] !in keywords)
      && (forall n, m :: n in names && m in names && n != m ==> names[n] != names[m])
    }

    /** Valid, except that the alias of `name` may still be a keyword. */
    ghost predicate ValidBut(name: string)
      reads this
    {
      && GeneratorValid()
      && name in names
      && (forall n :: n in names ==> names[n] in Issued)
      && (forall n :: n in names && n != name ==> names[n] !in keywords)
      && (forall n, m :: n in names && m in names && n != m ==> names[n] != names[m])
    }

    constructor ()
      ensures Valid() && keywords == Keywords
      ensures current == "a" && names == map[] && Issued == {}
    {
      keywords := Keywords;
      current := "a";
      names := map[];
      Issued := {};
    }

    /**
      `_make` (obfuscator.py:31-43): return the buffer read most significant
      digit first, then increment it with carry.
     */
    method Make() returns (alias: string)
      requires GeneratorValid()
      modifies this`current, this`Issued
      ensures GeneratorValid()
      ensures alias == Reverse(old(current)) && current == Succ(old(current))
      ensures IsAlias(alias) && alias !in old(Issued)
      ensures Issued == old(Issued) + {alias}
    {
      var result := current;
      Increment();
      alias := Reverse(result);
      SuccOrdered(result);
      forall a | a in Issued
        ensures ShortLexLess(a, Reverse(current))
      {
        ShortLexTransitive(a, alias, Reverse(current));
      }
      ShortLexIrreflexive(alias);
      Issued := Issued + {alias};
    }

    /** obfuscator.py:34-42: add one to the lowest digit and carry, appending a digit when every one wraps. */
    method Increment()
      requires IsAlias(current)
      modifies this`current
      ensures current == Succ(old(current))
    {
      ghost var ds := current;
      var index := 0;
      current := current[0 := (current[0] as int + 1) as char];
      while current[index] as int > 'z' as int
        invariant 0 <= index < |ds| == |current|
        invariant forall i :: 0 <= i < index ==> ds[i] == 'z' && current[i] == 'a'
        invariant current[index] as int == ds[index] as int + 1
        invariant current[index + 1..] == ds[index + 1..]
        decreases |ds| - index
      {
        current := current[index := 'a'];
        if index < |current| - 1 {
          ghost var wrapped := current;
          assert wrapped[index + 1..] == ds[index + 1..];
          index := index + 1;
          current := current[index := (current[index] as int + 1) as char];
          assert current[index + 1..] == wrapped[index + 1..] == wrapped[index..][1..];
        } else {
          current := current + ['a'];
          SuccAllCarry(ds);
          assert current == Succ(ds);
          break;
        }
      }
      if |current| == |ds| {
        SuccAt(ds, index);
      }
    }

    /** obfuscator.py:48-49: a name the registry does not know gets the next alias. */
    method Register(name: string)
      requires Valid() && name !in names
      modifies this
      ensures ValidBut(name) && old(Issued) <= Issued
      ensures names == old(names)[name := Reverse(old(current))]
      ensures Reverse(old(current)) !in old(Issued)
      ensures current == Succ(old(current)) && Issued == old(Issued) + {Reverse(old(current))}
    {
      var a := Make();
      names := names[name := a];
    }

    /** One redraw: `name` gets the next alias, which follows every alias drawn before. */
    method Redraw1(name: string)
      requires ValidBut(name)
      modifies this
      ensures ValidBut(name) && old(Issued) <= Issued
      ensures names == old(names)[name := Reverse(old(current))]
      ensures current == Succ(old(current)) && Issued == old(Issued) + {Reverse(old(current))}
      ensures names[name] !in old(Issued)
      ensures forall k :: ShortLexLess(k, old(names)[name]) ==> ShortLexLess(k, names[name])
      ensures ShortLexLess(old(names)[name], names[name])
    {
      ghost var candidate := names[name];
      var a := Make();
      forall k | ShortLexLess(k, candidate)
        ensures ShortLexLess(k, a)
      {
        ShortLexTransitive(k, candidate, a);
      }
      names := names[name := a];
    }

    /**
      obfuscator.py:52-53: while the alias of `name` is a Python keyword, it is
      replaced by the next one; the keywords drawn are discarded.
     */
    method Redraw(name: string)
      requires ValidBut(name)
      modifies this
      ensures Valid() && old(Issued) <= Issued
      ensures name in names && names == old(names)[name := names[name]]
      ensures old(names)[name] !in keywords ==> names == old(names) && current == old(current)
      ensures old(names)[name] in keywords ==>
        && names[name] == Reverse(NextFree(keywords, old(current)))
        && current == Succ(NextFree(keywords, old(current)))
        && names[name] !in old(Issued)
    {
      while names[name] in keywords
        invariant ValidBut(name) && old(Issued) <= Issued
        invariant names == old(names)[name := names[name]]
        invariant old(names)[name] !in keywords ==> names == old(names) && current == old(current)
        invariant names != old(names) ==> names[name] !in old(Issued)
        invariant old(names)[name] in keywords ==>
          if names[name] in keywords then NextFree(keywords, current) == NextFree(keywords, old(current))
          else names[name] == Reverse(NextFree(keywords, old(current))) && current == Succ(NextFree(keywords, old(current)))
        decreases Ahead(keywords, names[name])
      {
        ghost var candidate := names[name];
        ghost var buf := current;
        Redraw1(name);
        AheadShrinks(keywords, candidate, names[name]);
        assert NextFree(keywords, buf) == if Reverse(buf) in keywords then NextFree(keywords, current) else buf;
      }
    }
  }
}
