/** The deduplication rule all three collectors share: walk the candidates in
    order, skip one whose key is blank or already in the known set, otherwise
    accept it and add its key to the known set at once, so later candidates
    with the same key are skipped too.

    A candidate type `C` has a `key` (the article's link); `blank` holds the
    key values that are skipped outright (the empty link, in the collectors
    that check for it). */
module Dedup {

  predicate Skipped<K(==)>(k: K, known: set<K>, blank: set<K>)
  {
    k in blank || k in known
  }

  /** The accepted candidates, in encounter order. */
  function Admitted<C, K(==)>(cs: seq<C>, key: C -> K, known: set<K>, blank: set<K>): seq<C>
    decreases |cs|
  {
    if |cs| == 0 then []
    else if Skipped(key(cs[0]), known, blank) then Admitted(cs[1..], key, known, blank)
    else [cs[0]] + Admitted(cs[1..], key, known + {key(cs[0])}, blank)
  }

  /** The keys of a sequence of candidates. */
  ghost function Keys<C, K>(cs: seq<C>, key: C -> K): set<K>
  {
    set c | c in cs :: key(c)
  }

  /** No two candidates share a key. */
  ghost predicate DistinctKeys<C, K>(cs: seq<C>, key: C -> K)
  {
    forall i, j | 0 <= i < j < |cs| :: key(cs[i]) != key(cs[j])
  }

  /** `sub` is `s` with some elements left out, the rest in their order. */
  ghost predicate IsSubsequence<C>(sub: seq<C>, s: seq<C>)
    decreases |s|
  {
    if |sub| == 0 then true
    else if |s| == 0 then false
    else (sub[0] == s[0] && IsSubsequence(sub[1..], s[1..])) || IsSubsequence(sub, s[1..])
  }

  /** A reference definition of the accepted candidates, read from the
      back: the last candidate is accepted exactly when its key is not
      blank, not known, and not the key of any candidate before it. */
  ghost function FirstFresh<C, K>(cs: seq<C>, key: C -> K, known: set<K>, blank: set<K>): seq<C>
    decreases |cs|
  {
    if |cs| == 0 then []
    else
      var p, x := cs[..|cs| - 1], cs[|cs| - 1];
      FirstFresh(p, key, known, blank)
        + (if key(x) !in blank && key(x) !in known && key(x) !in Keys(p, key) then [x] else [])
  }

  /** One step of the walk: the first candidate is decided, then the rest. */
  lemma AdmittedCons<C, K>(c: C, rest: seq<C>, key: C -> K, known: set<K>, blank: set<K>)
    ensures Admitted([c] + rest, key, known, blank)
         == if Skipped(key(c), known, blank) then Admitted(rest, key, known, blank)
            else [c] + Admitted(rest, key, known + {key(c)}, blank)
  {
    assert ([c] + rest)[0] == c && ([c] + rest)[1..] == rest;
  }

  /** Extending the walk by one candidate: it is accepted exactly when its
      key is neither blank nor among the keys seen so far. */
  lemma AdmittedSnoc<C, K>(cs: seq<C>, j: nat, key: C -> K, known: set<K>, blank: set<K>)
    requires j < |cs|
    ensures
      var acc := Admitted(cs[..j], key, known, blank);
      && Admitted(cs[..j + 1], key, known, blank)
         == (if Skipped(key(cs[j]), known + Keys(acc, key), blank) then acc else acc + [cs[j]])
      && Keys(acc + [cs[j]], key) == Keys(acc, key) + {key(cs[j])}
  {
    var acc := Admitted(cs[..j], key, known, blank);
    var c := cs[j];
    assert cs[..j + 1] == cs[..j] + [c];
    AdmittedAppend(cs[..j], [c], key, known, blank);
    AdmittedCons(c, [], key, known + Keys(acc, key), blank);
    assert [c] + [] == [c];
    KeysAppend(acc, [c], key);
    KeysCons(c, [], key);
  }

  lemma KeysCons<C, K>(c: C, cs: seq<C>, key: C -> K)
    ensures Keys([c] + cs, key) == {key(c)} + Keys(cs, key)
  {
    assert forall x :: x in [c] + cs <==> x == c || x in cs;
  }

  lemma KeysSnoc<C, K>(cs: seq<C>, c: C, key: C -> K)
    ensures Keys(cs + [c], key) == Keys(cs, key) + {key(c)}
  {
    assert forall x :: x in cs + [c] <==> x in cs || x == c;
  }

  /** One step of a loop that carries the accepted prefix `acc` and the
      known set: candidate `j` is skipped exactly when its key is blank or
      known, and is otherwise appended with its key added to the set. */
  lemma AdmitStep<C, K>(cs: seq<C>, j: nat, key: C -> K, known0: set<K>, blank: set<K>,
                        acc: seq<C>, known: set<K>)
    requires j < |cs|
    requires acc == Admitted(cs[..j], key, known0, blank)
    requires known == known0 + Keys(acc, key)
    ensures Skipped(key(cs[j]), known, blank) ==> Admitted(cs[..j + 1], key, known0, blank) == acc
    ensures !Skipped(key(cs[j]), known, blank) ==>
      && Admitted(cs[..j + 1], key, known0, blank) == acc + [cs[j]]
      && known + {key(cs[j])} == known0 + Keys(acc + [cs[j]], key)
  {
    AdmittedSnoc(cs, j, key, known0, blank);
  }

  lemma KeysAppend<C, K>(a: seq<C>, b: seq<C>, key: C -> K)
    ensures Keys(a + b, key) == Keys(a, key) + Keys(b, key)
  {
    assert forall x :: x in a + b <==> x in a || x in b;
  }

  /** The accepted keys are exactly the candidates' keys minus the known and
      the blank ones: nothing known is admitted again and nothing new is
      lost. */
  lemma {:induction false} AdmittedKeys<C, K>(cs: seq<C>, key: C -> K, known: set<K>, blank: set<K>)
    ensures Keys(Admitted(cs, key, known, blank), key) == Keys(cs, key) - known - blank
    decreases |cs|
  {
    if |cs| == 0 {
    } else {
      var k := key(cs[0]);
      assert cs == [cs[0]] + cs[1..];
      KeysCons(cs[0], cs[1..], key);
      if Skipped(k, known, blank) {
        AdmittedKeys(cs[1..], key, known, blank);
      } else {
        AdmittedKeys(cs[1..], key, known + {k}, blank);
        KeysCons(cs[0], Admitted(cs[1..], key, known + {k}, blank), key);
      }
    }
  }

  /** No two accepted candidates share a key: within one run a link is
      admitted at most once. */
  lemma {:induction false} AdmittedDistinct<C, K>(cs: seq<C>, key: C -> K, known: set<K>, blank: set<K>)
    ensures DistinctKeys(Admitted(cs, key, known, blank), key)
    decreases |cs|
  {
    if |cs| > 0 {
      var k := key(cs[0]);
      if Skipped(k, known, blank) {
        AdmittedDistinct(cs[1..], key, known, blank);
      } else {
        var rest := Admitted(cs[1..], key, known + {k}, blank);
        AdmittedDistinct(cs[1..], key, known + {k}, blank);
        AdmittedKeys(cs[1..], key, known + {k}, blank);
        var r := [cs[0]] + rest;
        forall i, j | 0 <= i < j < |r| ensures key(r[i]) != key(r[j]) {
          if i == 0 {
            assert r[j] == rest[j - 1] && rest[j - 1] in rest;
            assert key(r[j]) in Keys(rest, key);
          } else {
            assert r[i] == rest[i - 1] && r[j] == rest[j - 1];
          }
        }
      }
    }
  }

  /** The accepted candidates keep their encounter order. */
  lemma {:induction false} AdmittedSubsequence<C, K>(cs: seq<C>, key: C -> K, known: set<K>, blank: set<K>)
    ensures IsSubsequence(Admitted(cs, key, known, blank), cs)
    decreases |cs|
  {
    if |cs| > 0 {
      var k := key(cs[0]);
      var known' := if Skipped(k, known, blank) then known else known + {k};
      AdmittedSubsequence(cs[1..], key, known', blank);
      var r := Admitted(cs, key, known, blank);
      if !Skipped(k, known, blank) {
        assert r[0] == cs[0] && r[1..] == Admitted(cs[1..], key, known', blank);
      }
    }
  }

  /** Splitting the candidates: the second part is filtered against the
      known set grown by what the first part admitted. */
  lemma {:induction false} AdmittedAppend<C, K>(a: seq<C>, b: seq<C>, key: C -> K, known: set<K>, blank: set<K>)
    ensures Admitted(a + b, key, known, blank)
         == Admitted(a, key, known, blank)
            + Admitted(b, key, known + Keys(Admitted(a, key, known, blank), key), blank)
    decreases |a|
  {
    if |a| == 0 {
      assert a + b == b;
      assert Keys(Admitted(a, key, known, blank), key) == {};
      assert known + {} == known;
    } else {
      var k := key(a[0]);
      assert (a + b)[0] == a[0] && (a + b)[1..] == a[1..] + b;
      if Skipped(k, known, blank) {
        AdmittedAppend(a[1..], b, key, known, blank);
      } else {
        AdmittedAppend(a[1..], b, key, known + {k}, blank);
        var rest := Admitted(a[1..], key, known + {k}, blank);
        KeysCons(a[0], rest, key);
        assert known + {k} + Keys(rest, key) == known + Keys([a[0]] + rest, key);
      }
    }
  }

  /** The front-to-back walk the collectors perform agrees with the
      reference definition `FirstFresh`. */
  lemma {:induction false} AdmittedIsFirstFresh<C, K>(cs: seq<C>, key: C -> K, known: set<K>, blank: set<K>)
    ensures Admitted(cs, key, known, blank) == FirstFresh(cs, key, known, blank)
    decreases |cs|
  {
    if |cs| > 0 {
      var p, x := cs[..|cs| - 1], cs[|cs| - 1];
      assert cs == p + [x];
      AdmittedIsFirstFresh(p, key, known, blank);
      AdmittedAppend(p, [x], key, known, blank);
      AdmittedKeys(p, key, known, blank);
      var known' := known + Keys(Admitted(p, key, known, blank), key);
      assert known' == known + (Keys(p, key) - blank);
      assert [x][1..] == [];
      assert Admitted([x], key, known', blank)
          == if Skipped(key(x), known', blank) then [] else [x];
    }
  }

  /** Once every key is known (or blank), nothing is admitted: the second of
      two runs over the same candidates adds nothing. */
  lemma Saturated<C, K>(cs: seq<C>, key: C -> K, known: set<K>, blank: set<K>)
    requires Keys(cs, key) <= known + blank
    ensures Admitted(cs, key, known, blank) == []
  {
    var r := Admitted(cs, key, known, blank);
    assert |r| == 0 || (r[0] in r && key(r[0]) in Keys(r, key));
    AdmittedKeys(cs, key, known, blank);
  }
}
