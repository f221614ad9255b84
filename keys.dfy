/** Key normalisation: delete every `.`, then every `_`, then lowercase.
    Only ASCII case mapping is modelled. */
module Keys {

  predicate IsUpperAscii(c: char) {
    'A' <= c <= 'Z'
  }

  /** `toLowerCase` on one character, restricted to ASCII. */
  function LowerChar(c: char): (r: char)
    ensures !IsUpperAscii(r)
    ensures IsUpperAscii(c) ==> 'a' <= r <= 'z' && r as int - c as int == 'a' as int - 'A' as int
    ensures !IsUpperAscii(c) ==> r == c
  {
    if IsUpperAscii(c) then (c as int - 'A' as int + 'a' as int) as char else c
  }

  /** `s.replaceAll(c, "")` for a one-character pattern `c`. */
  function RemoveAll(s: string, c: char): (r: string)
    ensures |r| <= |s|
    ensures c !in r
  {
    if s == [] then []
    else if s[0] == c then RemoveAll(s[1..], c)
    else [s[0]] + RemoveAll(s[1..], c)
  }

  /** Removing `c` deletes exactly the occurrences of `c`: every other character survives. */
  lemma {:induction false} RemoveAllKeeps(s: string, c: char)
    ensures forall x :: x in RemoveAll(s, c) <==> x in s && x != c
  {
    if s != [] {
      RemoveAllKeeps(s[1..], c);
      assert s == [s[0]] + s[1..];
    }
  }

  /** `s.toLowerCase()` for ASCII letters. */
  function ToLower(s: string): (r: string)
    ensures |r| == |s|
    ensures forall i :: 0 <= i < |s| ==> r[i] == LowerChar(s[i])
  {
    if s == [] then [] else [LowerChar(s[0])] + ToLower(s[1..])
  }

  /** A key that normalisation leaves as it is: no `.`, no `_`, no upper-case letter. */
  predicate IsNormalized(key: string) {
    forall i :: 0 <= i < |key| ==> key[i] != '.' && key[i] != '_' && !IsUpperAscii(key[i])
  }

  /** The key a flattened entry is stored under. */
  function Normalize(key: string): (r: string)
    ensures IsNormalized(r)
    ensures |r| <= |key|
  {
    var stripped := RemoveAll(RemoveAll(key, '.'), '_');
    RemoveAllKeeps(RemoveAll(key, '.'), '_');
    assert forall i :: 0 <= i < |stripped| ==> stripped[i] in stripped;
    ToLower(stripped)
  }

  /** Removing a character that does not occur changes nothing. */
  lemma {:induction false} RemoveAllAbsent(s: string, c: char)
    requires c !in s
    ensures RemoveAll(s, c) == s
  {
    if s != [] {
      assert s[0] != c;
      assert c !in s[1..];
      RemoveAllAbsent(s[1..], c);
    }
  }

  /** Removal works character by character, so it distributes over concatenation. */
  lemma {:induction false} RemoveAllAppend(a: string, b: string, c: char)
    ensures RemoveAll(a + b, c) == RemoveAll(a, c) + RemoveAll(b, c)
  {
    if a != [] {
      assert (a + b)[1..] == a[1..] + b;
      RemoveAllAppend(a[1..], b, c);
    } else {
      assert a + b == b;
    }
  }

  /** Lowercasing distributes over concatenation. */
  lemma {:induction false} ToLowerAppend(a: string, b: string)
    ensures ToLower(a + b) == ToLower(a) + ToLower(b)
  {
    var l, la, lb := ToLower(a + b), ToLower(a), ToLower(b);
    assert |l| == |la + lb|;
    forall i | 0 <= i < |l| ensures l[i] == (la + lb)[i] {
      if i < |a| {
        assert (a + b)[i] == a[i];
      } else {
        assert (a + b)[i] == b[i - |a|];
      }
    }
  }

  /** Normalising a normalised key changes nothing, and only normalised keys are fixed points. */
  lemma NormalizeFixedPoint(key: string)
    ensures Normalize(key) == key <==> IsNormalized(key)
  {
    if IsNormalized(key) {
      assert forall i :: 0 <= i < |key| ==> key[i] != '.';
      RemoveAllAbsent(key, '.');
      RemoveAllAbsent(key, '_');
      var l := ToLower(key);
      assert forall i :: 0 <= i < |key| ==> l[i] == key[i];
    }
  }

  /** Normalisation is idempotent. */
  lemma NormalizeIdempotent(key: string)
    ensures Normalize(Normalize(key)) == Normalize(key)
  {
    NormalizeFixedPoint(Normalize(key));
  }

  /** Normalisation works character by character, so it distributes over concatenation. */
  lemma NormalizeAppend(a: string, b: string)
    ensures Normalize(a + b) == Normalize(a) + Normalize(b)
  {
    RemoveAllAppend(a, b, '.');
    RemoveAllAppend(RemoveAll(a, '.'), RemoveAll(b, '.'), '_');
    ToLowerAppend(RemoveAll(RemoveAll(a, '.'), '_'), RemoveAll(RemoveAll(b, '.'), '_'));
  }

  /** On a key without separators, normalisation is plain lowercasing. */
  lemma NormalizeWithoutSeparators(key: string)
    requires '.' !in key && '_' !in key
    ensures Normalize(key) == ToLower(key)
  {
    RemoveAllAbsent(key, '.');
    RemoveAllAbsent(key, '_');
  }

  /** A separator on its own normalises to the empty key. */
  lemma NormalizeSeparator(sep: char)
    requires sep == '.' || sep == '_'
    ensures Normalize([sep]) == []
  {
    var once := RemoveAll([sep], '.');
    assert once == if sep == '.' then [] else [sep];
    assert RemoveAll(once, '_') == [];
  }

  /** A separator between two key parts vanishes: `a.b`, `a_b` and `ab` normalise alike. */
  lemma NormalizeSeparated(a: string, sep: char, b: string)
    requires sep == '.' || sep == '_'
    ensures Normalize(a + [sep] + b) == Normalize(a) + Normalize(b) == Normalize(a + b)
  {
    NormalizeAppend(a + [sep], b);
    NormalizeAppend(a, [sep]);
    NormalizeAppend(a, b);
    NormalizeSeparator(sep);
    assert Normalize(a) + [] == Normalize(a);
  }
}
