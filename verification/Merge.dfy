/** What an overlay of server entries on local entries means, stated without the maps,
    order list and `seen` set the program uses. S is a server entry, L a local one; they
    match when their keys are equal. */
module Merge {
  import opened Prelude

  datatype Scheme<!S, !L> = Scheme(
    serverKey: S -> string,
    localKey: L -> string,   // "" when the local entry has no key
    adopt: (L, S) -> L,      // the local entry under the server's identity
    convert: S -> Option<L>) // the server entry as a local entry, if expressible

  predicate HasKey<S, L>(m: Scheme<S, L>, us: seq<S>, key: string) {
    exists i :: 0 <= i < |us| && m.serverKey(us[i]) == key
  }

  /** The last server entry under a key: later entries win. */
  function LastOf<S, L>(m: Scheme<S, L>, us: seq<S>, key: string): (s: S)
    requires HasKey(m, us, key)
    ensures s in us && m.serverKey(s) == key
  {
    var n := |us| - 1;
    if m.serverKey(us[n]) == key then us[n]
    else
      assert HasKey(m, us[..n], key) by {
        var i :| 0 <= i < |us| && m.serverKey(us[i]) == key;
        assert us[..n][i] == us[i];
      }
      LastOf(m, us[..n], key)
  }

  /** No entry after the one found has its key. */
  lemma {:induction false} LastOfIsLast<S, L>(m: Scheme<S, L>, us: seq<S>, key: string) returns (i: nat)
    requires HasKey(m, us, key)
    ensures i < |us| && us[i] == LastOf(m, us, key) && m.serverKey(us[i]) == key
    ensures forall j :: i < j < |us| ==> m.serverKey(us[j]) != key
  {
    var n := |us| - 1;
    if m.serverKey(us[n]) == key {
      i := n;
    } else {
      var k :| 0 <= k < |us| && m.serverKey(us[k]) == key;
      assert us[..n][k] == us[k];
      i := LastOfIsLast(m, us[..n], key);
    }
  }

  function Adopted<S, L>(m: Scheme<S, L>, us: seq<S>, l: L): L {
    var key := m.localKey(l);
    if key != "" && HasKey(m, us, key) then m.adopt(l, LastOf(m, us, key)) else l
  }

  function LocalPart<S, L>(m: Scheme<S, L>, us: seq<S>, ls: seq<L>): seq<L> {
    seq(|ls|, i requires 0 <= i < |ls| => Adopted(m, us, ls[i]))
  }

  predicate Matched<S, L>(m: Scheme<S, L>, ls: seq<L>, key: string) {
    exists i :: 0 <= i < |ls| && m.localKey(ls[i]) == key
  }

  predicate Expressible<S, L>(m: Scheme<S, L>, us: seq<S>, key: string) {
    HasKey(m, us, key) && m.convert(LastOf(m, us, key)).Some?
  }

  /** Keys that get an entry of their own: expressible and matched by no local entry. */
  predicate Extra<S, L>(m: Scheme<S, L>, us: seq<S>, ls: seq<L>, key: string) {
    Expressible(m, us, key) && !Matched(m, ls, key)
  }

  /** The extra entries owed to the first n server entries: one at the first occurrence of
      each extra key, holding the data of the key's last occurrence. */
  function Appended<S, L>(m: Scheme<S, L>, us: seq<S>, ls: seq<L>, n: nat): seq<L>
    requires n <= |us|
  {
    if n == 0 then []
    else
      var key := m.serverKey(us[n - 1]);
      var before := Appended(m, us, ls, n - 1);
      if Extra(m, us, ls, key) && !HasKey(m, us[..n - 1], key)
      then before + [m.convert(LastOf(m, us, key)).value]
      else before
  }

  function Overlay<S, L>(m: Scheme<S, L>, us: seq<S>, ls: seq<L>): seq<L> {
    LocalPart(m, us, ls) + Appended(m, us, ls, |us|)
  }

  // ----- Size and contents ---------------------------------------------------------

  function KeySet<S, L>(m: Scheme<S, L>, us: seq<S>): (keys: set<string>)
    ensures forall k {:trigger k in keys} :: k in keys <==> HasKey(m, us, k)
  {
    set i | 0 <= i < |us| :: m.serverKey(us[i])
  }

  function ExtraKeys<S, L>(m: Scheme<S, L>, us: seq<S>, ls: seq<L>, n: nat): set<string>
    requires n <= |us|
  {
    set k | k in KeySet(m, us[..n]) && Extra(m, us, ls, k)
  }

  lemma HasKeyPrefix<S, L>(m: Scheme<S, L>, us: seq<S>, n: nat, key: string)
    requires 0 < n <= |us|
    ensures HasKey(m, us[..n], key) <==> HasKey(m, us[..n - 1], key) || m.serverKey(us[n - 1]) == key
  {
    if HasKey(m, us[..n], key) {
      var i :| 0 <= i < n && m.serverKey(us[..n][i]) == key;
      assert i < n - 1 ==> us[..n - 1][i] == us[i];
    }
    if HasKey(m, us[..n - 1], key) {
      var i :| 0 <= i < n - 1 && m.serverKey(us[..n - 1][i]) == key;
      assert us[..n][i] == us[i];
    }
    assert us[..n][n - 1] == us[n - 1];
  }

  lemma ExtraKeysNext<S, L>(m: Scheme<S, L>, us: seq<S>, ls: seq<L>, n: nat)
    requires 0 < n <= |us|
    ensures var key := m.serverKey(us[n - 1]);
            ExtraKeys(m, us, ls, n) ==
            ExtraKeys(m, us, ls, n - 1) + (if Extra(m, us, ls, key) then {key} else {})
    ensures m.serverKey(us[n - 1]) in ExtraKeys(m, us, ls, n - 1) <==>
            Extra(m, us, ls, m.serverKey(us[n - 1])) && HasKey(m, us[..n - 1], m.serverKey(us[n - 1]))
  {
    forall k
      ensures HasKey(m, us[..n], k) <==> HasKey(m, us[..n - 1], k) || m.serverKey(us[n - 1]) == k
    {
      HasKeyPrefix(m, us, n, k);
    }
  }

  lemma AddElement(s: set<string>, k: string)
    requires k !in s
    ensures |s + {k}| == |s| + 1
  {
  }

  lemma ExtraKeysSize<S, L>(m: Scheme<S, L>, us: seq<S>, ls: seq<L>, n: nat)
    requires 0 < n <= |us|
    ensures var key := m.serverKey(us[n - 1]);
            |ExtraKeys(m, us, ls, n)| == |ExtraKeys(m, us, ls, n - 1)| +
            (if Extra(m, us, ls, key) && !HasKey(m, us[..n - 1], key) then 1 else 0)
  {
    ExtraKeysNext(m, us, ls, n);
    var key, was := m.serverKey(us[n - 1]), ExtraKeys(m, us, ls, n - 1);
    if !Extra(m, us, ls, key) {
      assert was + {} == was;
    } else if key in was {
      assert was + {key} == was;
    } else {
      AddElement(was, key);
    }
  }

  /** One entry is appended per distinct extra key. */
  lemma {:induction false} AppendedSize<S, L>(m: Scheme<S, L>, us: seq<S>, ls: seq<L>, n: nat)
    requires n <= |us|
    ensures |Appended(m, us, ls, n)| == |ExtraKeys(m, us, ls, n)|
  {
    if n == 0 {
      assert ExtraKeys(m, us, ls, 0) == {};
    } else {
      AppendedSize(m, us, ls, n - 1);
      ExtraKeysSize(m, us, ls, n);
    }
  }

  lemma OverlaySize<S, L>(m: Scheme<S, L>, us: seq<S>, ls: seq<L>)
    ensures |Overlay(m, us, ls)| == |ls| + |ExtraKeys(m, us, ls, |us|)|
  {
    AppendedSize(m, us, ls, |us|);
  }

  /** The appended entries are exactly the converted last occurrences of extra keys. */
  lemma {:induction false} AppendedContents<S, L>(m: Scheme<S, L>, us: seq<S>, ls: seq<L>, n: nat, l: L)
    requires n <= |us|
    ensures l in Appended(m, us, ls, n) <==>
            exists k :: k in ExtraKeys(m, us, ls, n) && l == m.convert(LastOf(m, us, k)).value
  {
    if n == 0 {
    } else {
      AppendedContents(m, us, ls, n - 1, l);
      ExtraKeysNext(m, us, ls, n);
      var key := m.serverKey(us[n - 1]);
      var was, now := ExtraKeys(m, us, ls, n - 1), ExtraKeys(m, us, ls, n);
      if Extra(m, us, ls, key) {
        assert key in now;
      } else {
        assert now == was + {} == was;
      }
      assert forall k :: k in was ==> k in now;
    }
  }

  lemma AppendedGrows<S, L>(m: Scheme<S, L>, us: seq<S>, ls: seq<L>, i: nat, n: nat)
    requires i <= n <= |us|
    ensures Appended(m, us, ls, i) <= Appended(m, us, ls, n)
  {
  }

  /** Order of the appended part: an extra key that first occurs at server entry i stands
      behind exactly one entry per distinct extra key that occurs before i. */
  lemma AppendedPosition<S, L>(m: Scheme<S, L>, us: seq<S>, ls: seq<L>, i: nat)
    requires i < |us|
    requires Extra(m, us, ls, m.serverKey(us[i])) && !HasKey(m, us[..i], m.serverKey(us[i]))
    ensures var p := |ExtraKeys(m, us, ls, i)|;
            && p < |Appended(m, us, ls, |us|)|
            && Appended(m, us, ls, |us|)[p] == m.convert(LastOf(m, us, m.serverKey(us[i]))).value
  {
    AppendedSize(m, us, ls, i);
    AppendedGrows(m, us, ls, i + 1, |us|);
    assert Appended(m, us, ls, i + 1)[|Appended(m, us, ls, i)|] == m.convert(LastOf(m, us, m.serverKey(us[i]))).value;
  }

  // ----- The program's bookkeeping --------------------------------------------------

  /** The lookup table and the key list the program builds from the server entries. */
  ghost predicate Indexes<S, L>(m: Scheme<S, L>, us: seq<S>, index: map<string, S>, order: seq<string>) {
    && |order| == |us|
    && (forall i :: 0 <= i < |us| ==> order[i] == m.serverKey(us[i]))
    && (forall k {:trigger k in index} :: k in index <==> HasKey(m, us, k))
    && (forall k :: k in index ==> index[k] == LastOf(m, us, k))
  }

  lemma IndexNext<S, L>(m: Scheme<S, L>, us: seq<S>, index: map<string, S>, order: seq<string>, s: S)
    requires Indexes(m, us, index, order)
    ensures Indexes(m, us + [s], index[m.serverKey(s) := s], order + [m.serverKey(s)])
  {
    var n := |us|;
    assert (us + [s])[..n + 1] == us + [s] && (us + [s])[..n] == us;
    forall k ensures HasKey(m, us + [s], k) <==> HasKey(m, us, k) || m.serverKey(s) == k {
      HasKeyPrefix(m, us + [s], n + 1, k);
    }
  }

  /** The seen set after all local entries `ls` and the first n server entries. */
  ghost predicate SeenIs<S, L>(m: Scheme<S, L>, us: seq<S>, ls: seq<L>, n: nat, seen: set<string>)
    requires n <= |us|
  {
    forall k {:trigger k in seen} ::
      k in seen <==> HasKey(m, us, k) && (Matched(m, ls, k) || (Expressible(m, us, k) && HasKey(m, us[..n], k)))
  }

  lemma SeenLocal<S, L>(m: Scheme<S, L>, us: seq<S>, ls: seq<L>, seen: set<string>, l: L)
    requires SeenIs(m, us, ls, 0, seen)
    ensures SeenIs(m, us, ls + [l], 0, if HasKey(m, us, m.localKey(l)) then seen + {m.localKey(l)} else seen)
    ensures LocalPart(m, us, ls + [l]) == LocalPart(m, us, ls) + [Adopted(m, us, l)]
  {
    forall k ensures Matched(m, ls + [l], k) <==> Matched(m, ls, k) || m.localKey(l) == k {
      if Matched(m, ls, k) {
        var i :| 0 <= i < |ls| && m.localKey(ls[i]) == k;
        assert (ls + [l])[i] == ls[i];
      }
      assert (ls + [l])[|ls|] == l;
    }
  }

  lemma SeenServer<S, L>(m: Scheme<S, L>, us: seq<S>, ls: seq<L>, n: nat, seen: set<string>)
    requires n < |us| && SeenIs(m, us, ls, n, seen)
    ensures var key := m.serverKey(us[n]);
            SeenIs(m, us, ls, n + 1, if Expressible(m, us, key) then seen + {key} else seen)
  {
    forall k ensures HasKey(m, us[..n + 1], k) <==> HasKey(m, us[..n], k) || m.serverKey(us[n]) == k {
      HasKeyPrefix(m, us, n + 1, k);
    }
  }

  /** One iteration of the rename loop, for a local entry with and without a match. */
  lemma RenameStep<S, L>(m: Scheme<S, L>, us: seq<S>, ls: seq<L>, l: L, seen: set<string>,
                         index: map<string, S>, order: seq<string>)
    requires Indexes(m, us, index, order) && "" !in index && SeenIs(m, us, ls, 0, seen)
    ensures m.localKey(l) !in index ==>
              && SeenIs(m, us, ls + [l], 0, seen)
              && LocalPart(m, us, ls + [l]) == LocalPart(m, us, ls) + [l]
    ensures m.localKey(l) in index ==>
              && SeenIs(m, us, ls + [l], 0, seen + {m.localKey(l)})
              && LocalPart(m, us, ls + [l]) == LocalPart(m, us, ls) + [m.adopt(l, index[m.localKey(l)])]
  {
    SeenLocal(m, us, ls, seen, l);
  }

  /** One iteration of the append loop at server entry i, for each of its three outcomes. */
  lemma AppendStep<S, L>(m: Scheme<S, L>, us: seq<S>, ls: seq<L>, i: nat, seen: set<string>,
                         index: map<string, S>, order: seq<string>)
    requires i < |us| && Indexes(m, us, index, order) && SeenIs(m, us, ls, i, seen)
    ensures order[i] in index
    ensures order[i] in seen ==>
              SeenIs(m, us, ls, i + 1, seen) && Appended(m, us, ls, i + 1) == Appended(m, us, ls, i)
    ensures order[i] !in seen && m.convert(index[order[i]]).None? ==>
              SeenIs(m, us, ls, i + 1, seen) && Appended(m, us, ls, i + 1) == Appended(m, us, ls, i)
    ensures order[i] !in seen && m.convert(index[order[i]]).Some? ==>
              && SeenIs(m, us, ls, i + 1, seen + {order[i]})
              && Appended(m, us, ls, i + 1) == Appended(m, us, ls, i) + [m.convert(index[order[i]]).value]
  {
    var key := order[i];
    assert us[i] in us && HasKey(m, us, key);
    SeenServer(m, us, ls, i, seen);
    if key in seen {
      assert seen + {key} == seen;
    }
  }

  // ----- Overlaying twice -----------------------------------------------------------

  /** Adopting twice is adopting once, and never changes the key. */
  ghost predicate AdoptLaws<S(!new), L(!new)>(m: Scheme<S, L>) {
    && (forall l, s :: m.localKey(m.adopt(l, s)) == m.localKey(l))
    && (forall l, s :: m.adopt(m.adopt(l, s), s) == m.adopt(l, s))
    && (forall s :: m.convert(s).Some? ==> m.adopt(m.convert(s).value, s) == m.convert(s).value)
  }

  /** A converted server entry carries its own server key. */
  predicate RoundTrips<S, L>(m: Scheme<S, L>, s: S) {
    m.convert(s).Some? ==> m.localKey(m.convert(s).value) == m.serverKey(s)
  }

  lemma LocalPartKeys<S(!new), L(!new)>(m: Scheme<S, L>, us: seq<S>, ls: seq<L>, key: string)
    requires AdoptLaws(m) && Matched(m, ls, key)
    ensures Matched(m, Overlay(m, us, ls), key)
  {
    var i :| 0 <= i < |ls| && m.localKey(ls[i]) == key;
    var out := Overlay(m, us, ls);
    assert out[i] == Adopted(m, us, ls[i]);
    assert m.localKey(out[i]) == key;
  }

  lemma AppendedIsMatched<S(!new), L(!new)>(m: Scheme<S, L>, us: seq<S>, ls: seq<L>, key: string)
    requires Extra(m, us, ls, key) && RoundTrips(m, LastOf(m, us, key))
    ensures Matched(m, Overlay(m, us, ls), key)
  {
    var l := m.convert(LastOf(m, us, key)).value;
    assert us[..|us|] == us;
    assert key in ExtraKeys(m, us, ls, |us|);
    AppendedContents(m, us, ls, |us|, l);
    var j :| 0 <= j < |Appended(m, us, ls, |us|)| && Appended(m, us, ls, |us|)[j] == l;
    assert Overlay(m, us, ls)[|ls| + j] == l;
  }

  lemma AppendedIsAdopted<S(!new), L(!new)>(m: Scheme<S, L>, us: seq<S>, ls: seq<L>, l: L)
    requires AdoptLaws(m) && l in Appended(m, us, ls, |us|)
    requires forall s :: s in us ==> RoundTrips(m, s)
    ensures Adopted(m, us, l) == l
  {
    AppendedContents(m, us, ls, |us|, l);
    var k :| k in ExtraKeys(m, us, ls, |us|) && l == m.convert(LastOf(m, us, k)).value;
    assert RoundTrips(m, LastOf(m, us, k));
  }

  lemma NothingExtra<S, L>(m: Scheme<S, L>, us: seq<S>, ls: seq<L>, n: nat)
    requires n <= |us| && forall key :: !Extra(m, us, ls, key)
    ensures Appended(m, us, ls, n) == []
  {
  }

  lemma OverlayTwice<S(!new), L(!new)>(m: Scheme<S, L>, us: seq<S>, ls: seq<L>)
    requires AdoptLaws(m)
    requires forall s :: s in us ==> RoundTrips(m, s)
    ensures Overlay(m, us, Overlay(m, us, ls)) == Overlay(m, us, ls)
  {
    var out := Overlay(m, us, ls);
    forall i | 0 <= i < |out| ensures Adopted(m, us, out[i]) == out[i] {
      if i < |ls| {
        assert out[i] == Adopted(m, us, ls[i]);
      } else {
        AppendedIsAdopted(m, us, ls, out[i]);
      }
    }
    assert LocalPart(m, us, out) == out;
    forall key ensures !Extra(m, us, out, key) {
      if Expressible(m, us, key) {
        if Matched(m, ls, key) {
          LocalPartKeys(m, us, ls, key);
        } else {
          AppendedIsMatched(m, us, ls, key);
        }
      }
    }
    NothingExtra(m, us, out, |us|);
  }

  /** An expressible key that no local entry can ever carry is appended on every pass. */
  lemma OverlayKeepsGrowing<S, L(!new)>(m: Scheme<S, L>, us: seq<S>, ls: seq<L>, key: string)
    requires Expressible(m, us, key) && forall l :: m.localKey(l) != key
    ensures Overlay(m, us, ls) != ls
  {
    assert us[..|us|] == us;
    assert key in ExtraKeys(m, us, ls, |us|);
    OverlaySize(m, us, ls);
  }

  // ----- Order of the server entries ---------------------------------------------------

  predicate DistinctKeys<S, L>(m: Scheme<S, L>, us: seq<S>) {
    forall i, j :: 0 <= i < j < |us| ==> m.serverKey(us[i]) != m.serverKey(us[j])
  }

  lemma LastOfDistinct<S, L>(m: Scheme<S, L>, us: seq<S>, s: S)
    requires DistinctKeys(m, us) && s in us
    ensures HasKey(m, us, m.serverKey(s)) && LastOf(m, us, m.serverKey(s)) == s
  {
  }

  function FilterMap<S, T>(us: seq<S>, f: S -> Option<T>): seq<T> {
    if us == [] then []
    else FilterMap(us[..|us| - 1], f) + (match f(us[|us| - 1]) case Some(t) => [t] case None => [])
  }

  lemma {:induction false} FilterMapConcat<S, T>(a: seq<S>, b: seq<S>, f: S -> Option<T>)
    ensures FilterMap(a + b, f) == FilterMap(a, f) + FilterMap(b, f)
    decreases |b|
  {
    if b == [] {
      assert a + b == a;
    } else {
      assert (a + b)[..|a + b| - 1] == a + b[..|b| - 1];
      FilterMapConcat(a, b[..|b| - 1], f);
    }
  }

  /** The filter keeps entries as they are. */
  ghost predicate Keeps<S>(ss: seq<S>, f: S -> Option<S>) {
    forall i :: 0 <= i < |ss| && f(ss[i]).Some? ==> f(ss[i]).value == ss[i]
  }

  /** Entry j is kept, and no kept entry behind it has its key. */
  ghost predicate LastKept<S, L>(m: Scheme<S, L>, ss: seq<S>, f: S -> Option<S>, j: nat) {
    && j < |ss| && f(ss[j]).Some?
    && forall k :: j < k < |ss| && f(ss[k]).Some? ==> m.serverKey(ss[k]) != m.serverKey(ss[j])
  }

  lemma LastOfLonger<S, L>(m: Scheme<S, L>, us: seq<S>, s: S, key: string)
    ensures m.serverKey(s) == key ==> HasKey(m, us + [s], key) && LastOf(m, us + [s], key) == s
    ensures m.serverKey(s) != key ==> (HasKey(m, us + [s], key) <==> HasKey(m, us, key))
    ensures m.serverKey(s) != key && HasKey(m, us, key) ==> LastOf(m, us + [s], key) == LastOf(m, us, key)
  {
    var n := |us|;
    assert (us + [s])[..n + 1] == us + [s] && (us + [s])[..n] == us && (us + [s])[n] == s;
    HasKeyPrefix(m, us + [s], n + 1, key);
  }

  lemma FoundNext<S, L>(m: Scheme<S, L>, ss: seq<S>, f: S -> Option<S>, key: string)
    requires Keeps(ss, f) && ss != []
    ensures var n := |ss| - 1;
            var us, front, hit := FilterMap(ss, f), FilterMap(ss[..n], f), f(ss[n]).Some? && m.serverKey(ss[n]) == key;
            && (hit ==> HasKey(m, us, key) && LastOf(m, us, key) == ss[n])
            && (!hit ==> (HasKey(m, us, key) <==> HasKey(m, front, key)))
            && (!hit && HasKey(m, front, key) ==> LastOf(m, us, key) == LastOf(m, front, key))
  {
    var n := |ss| - 1;
    var front := FilterMap(ss[..n], f);
    if f(ss[n]).Some? {
      LastOfLonger(m, front, ss[n], key);
    } else {
      assert front + [] == front;
    }
  }

  lemma KeepsFront<S>(ss: seq<S>, f: S -> Option<S>)
    requires Keeps(ss, f) && ss != []
    ensures Keeps(ss[..|ss| - 1], f)
  {
  }

  lemma LastKeptFront<S, L>(m: Scheme<S, L>, ss: seq<S>, f: S -> Option<S>, j: nat)
    requires j < |ss| - 1 && !(f(ss[|ss| - 1]).Some? && m.serverKey(ss[|ss| - 1]) == m.serverKey(ss[j]))
    ensures LastKept(m, ss, f, j) <==> LastKept(m, ss[..|ss| - 1], f, j)
  {
    var front := ss[..|ss| - 1];
    assert forall k :: 0 <= k < |front| ==> front[k] == ss[k];
  }

  /** Such an entry is the one found under its key. */
  lemma {:induction false} LastKeptIsFound<S, L>(m: Scheme<S, L>, ss: seq<S>, f: S -> Option<S>, j: nat)
    requires Keeps(ss, f) && LastKept(m, ss, f, j)
    ensures var us, key := FilterMap(ss, f), m.serverKey(ss[j]); HasKey(m, us, key) && LastOf(m, us, key) == ss[j]
    decreases |ss|
  {
    FoundNext(m, ss, f, m.serverKey(ss[j]));
    if j < |ss| - 1 {
      KeepsFront(ss, f);
      LastKeptFront(m, ss, f, j);
      LastKeptIsFound(m, ss[..|ss| - 1], f, j);
    }
  }

  /** And whatever is found under a key is such an entry. */
  lemma {:induction false} FoundIsLastKept<S, L>(m: Scheme<S, L>, ss: seq<S>, f: S -> Option<S>, key: string)
    returns (j: nat)
    requires Keeps(ss, f) && HasKey(m, FilterMap(ss, f), key)
    ensures LastKept(m, ss, f, j) && m.serverKey(ss[j]) == key && LastOf(m, FilterMap(ss, f), key) == ss[j]
    decreases |ss|
  {
    FoundNext(m, ss, f, key);
    if f(ss[|ss| - 1]).Some? && m.serverKey(ss[|ss| - 1]) == key {
      j := |ss| - 1;
    } else {
      KeepsFront(ss, f);
      j := FoundIsLastKept(m, ss[..|ss| - 1], f, key);
      LastKeptFront(m, ss, f, j);
    }
  }

  lemma CancelOne<S>(a: multiset<S>, b: multiset<S>, x: S)
    requires a + multiset{x} == b + multiset{x}
    ensures a == b
  {
    forall y ensures a[y] == b[y] {
      assert (a + multiset{x})[y] == (b + multiset{x})[y];
    }
  }

  /** Reordering the input only reorders the output. */
  lemma {:induction false} FilterMapPermuted<S, T>(a: seq<S>, b: seq<S>, f: S -> Option<T>)
    requires multiset(a) == multiset(b)
    ensures multiset(FilterMap(a, f)) == multiset(FilterMap(b, f))
    decreases |a|
  {
    if a == [] {
      assert |multiset(b)| == 0;
    } else {
      var x := a[|a| - 1];
      assert x in multiset(b);
      var j :| 0 <= j < |b| && b[j] == x;
      var init, left, right := a[..|a| - 1], b[..j], b[j + 1..];
      assert a == init + [x];
      assert b == left + ([x] + right);
      assert multiset(left + right) == multiset(init) by {
        assert multiset(a) == multiset(init) + multiset{x};
        assert multiset(b) == multiset(left) + (multiset{x} + multiset(right));
        CancelOne(multiset(init), multiset(left) + multiset(right), x);
      }
      FilterMapPermuted(init, left + right, f);
      FilterMapConcat(init, [x], f);
      FilterMapConcat(left, right, f);
      FilterMapConcat(left, [x] + right, f);
      FilterMapConcat([x], right, f);
    }
  }

  /** With pairwise distinct keys, each server entry decides on its own whether it is
      appended. */
  lemma {:induction false} AppendedDistinct<S, L>(m: Scheme<S, L>, us: seq<S>, ls: seq<L>, n: nat)
    requires n <= |us| && DistinctKeys(m, us)
    ensures Appended(m, us, ls, n) ==
            FilterMap(us[..n], s => if Matched(m, ls, m.serverKey(s)) then None else m.convert(s))
  {
    if n == 0 {
    } else {
      var f := s => if Matched(m, ls, m.serverKey(s)) then None else m.convert(s);
      AppendedDistinct(m, us, ls, n - 1);
      assert us[..n][..n - 1] == us[..n - 1];
      LastOfDistinct(m, us, us[n - 1]);
      assert !HasKey(m, us[..n - 1], m.serverKey(us[n - 1]));
    }
  }

  lemma HasKeyPermuted<S, L>(m: Scheme<S, L>, us: seq<S>, vs: seq<S>, key: string)
    requires multiset(us) == multiset(vs) && HasKey(m, us, key)
    ensures HasKey(m, vs, key)
  {
    var i :| 0 <= i < |us| && m.serverKey(us[i]) == key;
    assert us[i] in multiset(vs);
  }

  lemma AdoptedPermuted<S, L>(m: Scheme<S, L>, us: seq<S>, vs: seq<S>, l: L)
    requires multiset(us) == multiset(vs) && DistinctKeys(m, us) && DistinctKeys(m, vs)
    ensures Adopted(m, us, l) == Adopted(m, vs, l)
  {
    var key := m.localKey(l);
    if HasKey(m, us, key) {
      var s := LastOf(m, us, key);
      assert s in multiset(vs);
      LastOfDistinct(m, vs, s);
    } else if HasKey(m, vs, key) {
      HasKeyPermuted(m, vs, us, key);
      assert false;
    }
  }

  lemma LocalPartPermuted<S, L>(m: Scheme<S, L>, us: seq<S>, vs: seq<S>, ls: seq<L>)
    requires multiset(us) == multiset(vs) && DistinctKeys(m, us) && DistinctKeys(m, vs)
    ensures LocalPart(m, us, ls) == LocalPart(m, vs, ls)
  {
    forall i | 0 <= i < |ls| ensures Adopted(m, us, ls[i]) == Adopted(m, vs, ls[i]) {
      AdoptedPermuted(m, us, vs, ls[i]);
    }
  }

  lemma AppendedPermuted<S, L>(m: Scheme<S, L>, us: seq<S>, vs: seq<S>, ls: seq<L>)
    requires multiset(us) == multiset(vs) && DistinctKeys(m, us) && DistinctKeys(m, vs)
    ensures multiset(Appended(m, us, ls, |us|)) == multiset(Appended(m, vs, ls, |vs|))
  {
    var f := s => if Matched(m, ls, m.serverKey(s)) then None else m.convert(s);
    AppendedDistinct(m, us, ls, |us|);
    AppendedDistinct(m, vs, ls, |vs|);
    assert us[..|us|] == us && vs[..|vs|] == vs;
    FilterMapPermuted(us, vs, f);
  }

  /** Reordering server entries with distinct keys leaves the local part alone and only
      reorders the appended part. */
  lemma OverlayPermuted<S, L>(m: Scheme<S, L>, us: seq<S>, vs: seq<S>, ls: seq<L>)
    requires multiset(us) == multiset(vs) && DistinctKeys(m, us) && DistinctKeys(m, vs)
    ensures LocalPart(m, us, ls) == LocalPart(m, vs, ls)
    ensures multiset(Appended(m, us, ls, |us|)) == multiset(Appended(m, vs, ls, |vs|))
  {
    LocalPartPermuted(m, us, vs, ls);
    AppendedPermuted(m, us, vs, ls);
  }

  // ----- Properties of every entry ---------------------------------------------------------

  predicate AllOk<L>(ls: seq<L>, ok: L -> bool) {
    forall i :: 0 <= i < |ls| ==> ok(ls[i])
  }

  lemma AppendedOkIff<S, L>(m: Scheme<S, L>, us: seq<S>, ls: seq<L>, ok: L -> bool)
    ensures AllOk(Appended(m, us, ls, |us|), ok) <==>
            forall key :: Extra(m, us, ls, key) ==> ok(m.convert(LastOf(m, us, key)).value)
  {
    var app := Appended(m, us, ls, |us|);
    assert us[..|us|] == us;
    if AllOk(app, ok) {
      forall key | Extra(m, us, ls, key) ensures ok(m.convert(LastOf(m, us, key)).value) {
        var l := m.convert(LastOf(m, us, key)).value;
        assert key in ExtraKeys(m, us, ls, |us|);
        AppendedContents(m, us, ls, |us|, l);
        var j :| 0 <= j < |app| && app[j] == l;
      }
    }
    if forall key :: Extra(m, us, ls, key) ==> ok(m.convert(LastOf(m, us, key)).value) {
      forall j | 0 <= j < |app| ensures ok(app[j]) {
        AppendedContents(m, us, ls, |us|, app[j]);
      }
    }
  }

  /** A property of local entries that renaming respects survives the overlay exactly when
      the extra entries have it. */
  lemma OverlayOkIff<S(!new), L(!new)>(m: Scheme<S, L>, us: seq<S>, ls: seq<L>, ok: L -> bool)
    requires AllOk(ls, ok) && forall l, s :: ok(m.adopt(l, s)) == ok(l)
    ensures AllOk(Overlay(m, us, ls), ok) <==>
            forall key :: Extra(m, us, ls, key) ==> ok(m.convert(LastOf(m, us, key)).value)
  {
    var out, app := Overlay(m, us, ls), Appended(m, us, ls, |us|);
    AppendedOkIff(m, us, ls, ok);
    forall i | 0 <= i < |ls| ensures ok(out[i]) {
      assert out[i] == Adopted(m, us, ls[i]);
    }
    assert forall j :: 0 <= j < |app| ==> out[|ls| + j] == app[j];
    assert forall i :: |ls| <= i < |out| ==> out[i] == app[i - |ls|];
    if AllOk(out, ok) {
      forall j | 0 <= j < |app| ensures ok(app[j]) {
        assert ok(out[|ls| + j]);
      }
    }
  }

  // ----- When two lists of server entries come to the same ----------------------------------

  /** The distinct extra keys among the first n server entries, as they first occur. */
  function ExtraOrder<S, L>(m: Scheme<S, L>, us: seq<S>, ls: seq<L>, n: nat): (keys: seq<string>)
    requires n <= |us|
    ensures forall j :: 0 <= j < |keys| ==> Extra(m, us, ls, keys[j])
  {
    if n == 0 then []
    else
      var key := m.serverKey(us[n - 1]);
      var before := ExtraOrder(m, us, ls, n - 1);
      if Extra(m, us, ls, key) && !HasKey(m, us[..n - 1], key) then before + [key] else before
  }

  /** What the server orders for an extra key: its last entry, converted. */
  function Ordered<S, L>(m: Scheme<S, L>, us: seq<S>, ls: seq<L>, key: string): L
    requires Extra(m, us, ls, key)
  {
    m.convert(LastOf(m, us, key)).value
  }

  lemma {:induction false} AppendedInOrder<S, L>(m: Scheme<S, L>, us: seq<S>, ls: seq<L>, n: nat)
    requires n <= |us|
    ensures |Appended(m, us, ls, n)| == |ExtraOrder(m, us, ls, n)|
    ensures forall j :: 0 <= j < |ExtraOrder(m, us, ls, n)| ==>
              Appended(m, us, ls, n)[j] == Ordered(m, us, ls, ExtraOrder(m, us, ls, n)[j])
  {
    if n == 0 {
    } else {
      AppendedInOrder(m, us, ls, n - 1);
    }
  }

  /** Both lists add the same entries in the same order. */
  predicate SameExtras<S, L(==)>(m: Scheme<S, L>, us: seq<S>, us': seq<S>, ls: seq<L>) {
    var keys, keys' := ExtraOrder(m, us, ls, |us|), ExtraOrder(m, us', ls, |us'|);
    && |keys| == |keys'|
    && forall j :: 0 <= j < |keys| ==> Ordered(m, us, ls, keys[j]) == Ordered(m, us', ls, keys'[j])
  }

  lemma SameAppendedIff<S, L>(m: Scheme<S, L>, us: seq<S>, us': seq<S>, ls: seq<L>)
    ensures Appended(m, us, ls, |us|) == Appended(m, us', ls, |us'|) <==> SameExtras(m, us, us', ls)
  {
    AppendedInOrder(m, us, ls, |us|);
    AppendedInOrder(m, us', ls, |us'|);
    if SameExtras(m, us, us', ls) {
      assert Appended(m, us, ls, |us|) == Appended(m, us', ls, |us'|);
    }
  }

  lemma SameLocalIff<S, L>(m: Scheme<S, L>, us: seq<S>, us': seq<S>, ls: seq<L>)
    ensures LocalPart(m, us, ls) == LocalPart(m, us', ls) <==>
            forall i :: 0 <= i < |ls| ==> Adopted(m, us, ls[i]) == Adopted(m, us', ls[i])
  {
    if LocalPart(m, us, ls) == LocalPart(m, us', ls) {
      forall i | 0 <= i < |ls| ensures Adopted(m, us, ls[i]) == Adopted(m, us', ls[i]) {
        assert LocalPart(m, us, ls)[i] == LocalPart(m, us', ls)[i];
      }
    }
  }

  /** Two lists of server entries overlay a local list alike exactly when each local entry
      adopts the same from both and both add the same entries in the same order. */
  lemma SameOverlayIff<S, L>(m: Scheme<S, L>, us: seq<S>, us': seq<S>, ls: seq<L>)
    ensures Overlay(m, us, ls) == Overlay(m, us', ls) <==>
            && (forall i :: 0 <= i < |ls| ==> Adopted(m, us, ls[i]) == Adopted(m, us', ls[i]))
            && SameExtras(m, us, us', ls)
  {
    SameLocalIff(m, us, us', ls);
    SameAppendedIff(m, us, us', ls);
    SplitAt(LocalPart(m, us, ls), Appended(m, us, ls, |us|), LocalPart(m, us', ls), Appended(m, us', ls, |us'|));
  }

  lemma SplitAt<T>(a: seq<T>, b: seq<T>, a': seq<T>, b': seq<T>)
    requires |a| == |a'|
    ensures a + b == a' + b' <==> a == a' && b == b'
  {
    if a + b == a' + b' {
      assert a == (a + b)[..|a|] == a';
      assert b == (a + b)[|a|..] == b';
    }
  }
}
