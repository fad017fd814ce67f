/**
 * MessageUtil: null-safe template substitution (`String.replace`) and the
 * empty-input guard of the legacy `&`-colour component builder.
 */
module MessageUtil {
  import opened Util
  import opened Text

  /** An Adventure text component. Deserialising `&` colour codes belongs to a
      foreign library, so a non-empty component keeps its legacy source text. */
  datatype Component = EmptyComponent | Legacy(source: string)

  /** `MessageUtil.component`: null or "" give the empty component. */
  function ComponentOf(message: Option<string>): (c: Component)
    ensures c == EmptyComponent <==> message.None? || message.value == []
    ensures c.Legacy? ==> c.source == message.value
  {
    if message.None? || message.value == [] then EmptyComponent else Legacy(message.value)
  }

  /** `String.replace(target, replacement)` with an empty target: the
      replacement goes before every character and at the end. */
  function InsertEverywhere(s: string, value: string): (r: string)
    ensures |r| == |s| + (|s| + 1) * |value|
  {
    if s == [] then value else value + [s[0]] + InsertEverywhere(s[1..], value)
  }

  /** `InsertEverywhere` of a message cut around one character: the value
      copies of the two sides meet at that character. */
  lemma {:induction false} InsertEverywhereSplit(a: string, c: char, b: string, value: string)
    ensures InsertEverywhere(a + [c] + b, value) == InsertEverywhere(a, value) + [c] + InsertEverywhere(b, value)
    decreases |a|
  {
    if a == [] {
      assert a + [c] + b == [c] + b;
      assert ([c] + b)[1..] == b;
    } else {
      assert (a + [c] + b)[1..] == a[1..] + [c] + b;
      InsertEverywhereSplit(a[1..], c, b, value);
    }
  }

  /** Every result of `InsertEverywhere` ends with a copy of the value. */
  lemma {:induction false} InsertEverywhereEndsWithValue(s: string, value: string)
    ensures InsertEverywhere(s, value)[|InsertEverywhere(s, value)| - |value|..] == value
    decreases |s|
  {
    if s != [] {
      InsertEverywhereEndsWithValue(s[1..], value);
    }
  }

  /** The `k` places that end at `i * (k + 1) + k`, or nothing when they do not fit. */
  function Block(r: string, i: nat, k: nat): string {
    if i * (k + 1) + k <= |r| then r[i * (k + 1) .. i * (k + 1) + k] else []
  }

  /** Where `InsertEverywhere` puts the message: with `k` the length of the
      value, the i-th character lands at `i * (k + 1) + k`. */
  lemma InsertEverywhereChars(s: string, value: string)
    ensures forall i :: 0 <= i < |s| ==>
      i * (|value| + 1) + |value| < |InsertEverywhere(s, value)|
      && InsertEverywhere(s, value)[i * (|value| + 1) + |value|] == s[i]
  {
    forall i | 0 <= i < |s|
      ensures i * (|value| + 1) + |value| < |InsertEverywhere(s, value)|
      ensures InsertEverywhere(s, value)[i * (|value| + 1) + |value|] == s[i]
    {
      PlacementAt(s, value, i);
    }
  }

  /** Where `InsertEverywhere` puts the value: a copy fills the `k` places
      before each character and the last `k` places. */
  lemma InsertEverywhereBlocks(s: string, value: string)
    ensures forall i :: 0 <= i <= |s| ==> Block(InsertEverywhere(s, value), i, |value|) == value
  {
    var k := |value|;
    var r := InsertEverywhere(s, value);
    forall i | 0 <= i <= |s|
      ensures Block(r, i, k) == value
    {
      if i < |s| {
        PlacementAt(s, value, i);
      } else {
        InsertEverywhereEndsWithValue(s, value);
        SlotArithmetic(|s|, k);
        assert Block(r, |s|, k) == r[|r| - k..];
      }
    }
  }

  /** The i-th character of the message, cut out: the part before it is
      `InsertEverywhere` of the characters before it, which ends with the value. */
  lemma PlacementAt(s: string, value: string, i: nat)
    requires i < |s|
    ensures var r := InsertEverywhere(s, value);
      i * (|value| + 1) + |value| < |r| && r[i * (|value| + 1) + |value|] == s[i]
      && Block(r, i, |value|) == value
  {
    var k := |value|;
    var p := InsertEverywhere(s[..i], value);
    assert s == s[..i] + [s[i]] + s[i + 1..];
    InsertEverywhereSplit(s[..i], s[i], s[i + 1..], value);
    InsertEverywhereEndsWithValue(s[..i], value);
    assert |p| == i + (i + 1) * k;
    SlotArithmetic(i, k);
    var r := InsertEverywhere(s, value);
    assert r == p + [s[i]] + InsertEverywhere(s[i + 1..], value);
    assert r[i * (k + 1) .. i * (k + 1) + k] == p[|p| - k..];
  }

  lemma SlotArithmetic(i: nat, k: nat)
    ensures i + (i + 1) * k == i * (k + 1) + k
  {
  }

  /** `String.replace(key, value)`: every non-overlapping occurrence of `key`,
      found scanning left to right, becomes `value`; that is, the message is
      cut at those occurrences and the pieces are joined with `value`. */
  function ReplaceAll(s: string, key: string, value: string): (r: string)
    ensures key == [] ==> r == InsertEverywhere(s, value)
    ensures key != [] ==> r == Join(Pieces(s, key), value)
    decreases |s|
  {
    if key == [] then InsertEverywhere(s, value)
    else if |s| < |key| then s
    else if key <= s then
      var rest := Pieces(s[|key|..], key);
      assert ([[]] + rest)[1..] == rest;
      value + ReplaceAll(s[|key|..], key, value)
    else
      JoinPrepend([s[0]], Pieces(s[1..], key), value);
      [s[0]] + ReplaceAll(s[1..], key, value)
  }

  /** The text between the occurrences `ReplaceAll` substitutes, left to right:
      an independent description of the scan, by cutting instead of rewriting. */
  function Pieces(s: string, key: string): (r: seq<string>)
    requires key != []
    ensures |r| >= 1 && r[0] <= s
    decreases |s|
  {
    if |s| < |key| then [s]
    else if key <= s then [[]] + Pieces(s[|key|..], key)
    else
      var rest := Pieces(s[1..], key);
      [[s[0]] + rest[0]] + rest[1..]
  }

  /** `MessageUtil.replace`: a null message gives "". */
  function Replace(message: Option<string>, key: string, value: string): (r: string)
    ensures message.None? ==> r == []
    ensures message.Some? && !Contains(message.value, key) ==> r == message.value
  {
    if message.None? then []
    else
      var s := message.value;
      if !Contains(s, key) then ReplaceUnchangedWithoutKey(s, key, value); ReplaceAll(s, key, value)
      else ReplaceAll(s, key, value)
  }

  /** A message that does not contain the key comes back unchanged. */
  lemma {:induction false} ReplaceUnchangedWithoutKey(s: string, key: string, value: string)
    requires !Contains(s, key)
    ensures ReplaceAll(s, key, value) == s
    decreases |s|
  {
    assert key != [] by {
      if key == [] { assert OccursAt(s, key, 0); }
    }
    if |s| >= |key| {
      if key <= s {
        assert OccursAt(s, key, 0);
      } else {
        forall i | 0 <= i <= |s[1..]| && OccursAt(s[1..], key, i)
          ensures false
        {
          assert s[1..][i..i + |key|] == s[i + 1..i + 1 + |key|];
          assert OccursAt(s, key, i + 1);
        }
        ReplaceUnchangedWithoutKey(s[1..], key, value);
      }
    }
  }

  /** Gluing a prefix onto the first part of a join. */
  lemma JoinPrepend(head: string, parts: seq<string>, sep: string)
    requires |parts| >= 1
    ensures Join([head + parts[0]] + parts[1..], sep) == head + Join(parts, sep)
  {
    var p := [head + parts[0]] + parts[1..];
    if |parts| > 1 {
      assert p[1..] == parts[1..];
    }
  }

  /** Replacing the key by itself changes nothing. */
  lemma {:induction false} ReplaceByKeyIsIdentity(s: string, key: string)
    requires key != []
    ensures ReplaceAll(s, key, key) == s
    decreases |s|
  {
    if |s| < |key| {
    } else if key <= s {
      ReplaceByKeyIsIdentity(s[|key|..], key);
      assert s == key + s[|key|..];
    } else {
      ReplaceByKeyIsIdentity(s[1..], key);
      assert s == [s[0]] + s[1..];
    }
  }

  /** Cutting at the occurrences and gluing the key back restores the message. */
  lemma PiecesJoinBack(s: string, key: string)
    requires key != []
    ensures Join(Pieces(s, key), key) == s
  {
    ReplaceByKeyIsIdentity(s, key);
  }

  /** No piece contains the key: every occurrence was substituted. */
  lemma {:induction false} PiecesAreKeyFree(s: string, key: string)
    requires key != []
    ensures forall k :: 0 <= k < |Pieces(s, key)| ==> !Contains(Pieces(s, key)[k], key)
    decreases |s|
  {
    var p := Pieces(s, key);
    if |s| < |key| {
      assert p == [s];
      forall i | 0 <= i <= |s| ensures !OccursAt(s, key, i) { }
    } else if key <= s {
      PiecesAreKeyFree(s[|key|..], key);
      var rest := Pieces(s[|key|..], key);
      assert p == [[]] + rest;
      forall k | 0 <= k < |p| ensures !Contains(p[k], key) {
        if k == 0 {
          assert p[0] == [];
        } else {
          assert p[k] == rest[k - 1];
        }
      }
    } else {
      PiecesAreKeyFree(s[1..], key);
      var rest := Pieces(s[1..], key);
      assert p == [[s[0]] + rest[0]] + rest[1..];
      var first := [s[0]] + rest[0];
      assert first <= s;
      forall i | 0 <= i <= |first|
        ensures !OccursAt(first, key, i)
      {
        if i == 0 && |key| <= |first| {
          assert first[..|key|] == s[..|key|];
        } else if 0 < i && i + |key| <= |first| {
          assert first[i..i + |key|] == rest[0][i - 1..i - 1 + |key|];
          assert !OccursAt(rest[0], key, i - 1);
        }
      }
      forall k | 0 <= k < |p| ensures !Contains(p[k], key) {
        if k > 0 {
          assert p[k] == rest[k];
        }
      }
    }
  }
}
