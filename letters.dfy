/**
 * The military time-zone letters: the lookup from a whole-hour UTC offset to
 * its letter, the entry list main.js builds for the letter grid, and the
 * descending sort the grid applies to it.
 */
module Letters {
  import opened JsStrings

  /** Letters for offsets 0..12, indexed by the offset ('J' is not used). */
  const PositiveLetters: seq<char> := ['Z', 'A', 'B', 'C', 'D', 'E', 'F', 'G', 'H', 'I', 'K', 'L', 'M']
  /** Letters for offsets -1..-12, indexed by the magnitude minus one. */
  const NegativeLetters: seq<char> := ['N', 'O', 'P', 'Q', 'R', 'S', 'T', 'U', 'V', 'W', 'X', 'Y']
  /** What an offset without a letter gets. */
  const Unknown: char := '?'

  predicate InZoneRange(offset: int) { -12 <= offset <= 12 }

  /** `offsetToLetter`: never fails; offsets outside [-12, 12] get the sentinel. */
  function OffsetToLetter(offset: int): (c: char)
    ensures c == Unknown <==> !InZoneRange(offset)
    ensures c == 'Z' <==> offset == 0
    ensures InZoneRange(offset) ==> 'A' <= c <= 'Z' && c != 'J'
  {
    if offset == 0 then 'Z'
    else if offset > 0 && offset <= 12 then PositiveLetters[offset]
    else if offset < 0 && offset >= -12 then NegativeLetters[-offset - 1]
    else Unknown
  }

  /**
   * The military scheme stated by alphabet position: Z is UTC, A..I are
   * +1..+9, K..M are +10..+12 (J is skipped), N..Y are -1..-12.
   */
  function LetterToOffset(c: char): (r: Option<int>)
    ensures r.Some? <==> 'A' <= c <= 'Z' && c != 'J'
    ensures r.Some? ==> InZoneRange(r.value)
  {
    if c == 'Z' then Some(0)
    else if 'A' <= c <= 'I' then Some(c as int - 'A' as int + 1)
    else if 'K' <= c <= 'M' then Some(c as int - 'A' as int)
    else if 'N' <= c <= 'Y' then Some('M' as int - c as int)
    else None
  }

  /** The letter of every offset in range reads back as that offset. */
  lemma LetterToOffsetOfOffsetToLetter(offset: int)
    requires InZoneRange(offset)
    ensures LetterToOffset(OffsetToLetter(offset)) == Some(offset)
  {
    if 1 <= offset <= 9 {
      assert forall k :: 1 <= k <= 9 ==> PositiveLetters[k] as int == 'A' as int + k - 1;
    } else if 10 <= offset {
      assert forall k :: 10 <= k <= 12 ==> PositiveLetters[k] as int == 'A' as int + k;
    } else if offset < 0 {
      assert forall k :: 0 <= k < 12 ==> NegativeLetters[k] as int == 'N' as int + k;
    }
  }

  /** Every letter of the scheme is the letter of the offset it stands for. */
  lemma OffsetToLetterOfLetterToOffset(c: char)
    requires LetterToOffset(c).Some?
    ensures OffsetToLetter(LetterToOffset(c).value) == c
  {
    var k := LetterToOffset(c).value;
    LetterToOffsetOfOffsetToLetter(k);
    var d := OffsetToLetter(k);
    assert LetterToOffset(d) == LetterToOffset(c);
  }

  /** Over [-12, 12] the lookup is one-to-one. */
  lemma OffsetToLetterInjective(a: int, b: int)
    requires InZoneRange(a) && InZoneRange(b)
    requires OffsetToLetter(a) == OffsetToLetter(b)
    ensures a == b
  {
    LetterToOffsetOfOffsetToLetter(a);
    LetterToOffsetOfOffsetToLetter(b);
  }

  /** Every letter A..Z other than J is the letter of exactly one offset in range. */
  lemma OffsetToLetterOnto(c: char)
    requires 'A' <= c <= 'Z' && c != 'J'
    ensures exists k :: InZoneRange(k) && OffsetToLetter(k) == c
  {
    OffsetToLetterOfLetterToOffset(c);
  }

  // ---------------------------------------------------------------------
  // The entry list and its sort
  // ---------------------------------------------------------------------

  datatype LetterEntry = LetterEntry(letter: char, offset: int)

  /** No offset appears twice. */
  predicate DistinctOffsets(s: seq<LetterEntry>)
  {
    forall j, k :: 0 <= j < k < |s| ==> s[j].offset != s[k].offset
  }

  /**
   * `letterEntries`: Z at 0, then one push per offset 1..12, then one push per
   * offset -1..-12; each letter is the one `OffsetToLetter` gives its offset.
   */
  method LetterEntries() returns (entries: seq<LetterEntry>)
    ensures |entries| == 25 && entries[0].offset == 0
    ensures forall k :: 1 <= k <= 12 ==> entries[k].offset == k
    ensures forall k :: 13 <= k < 25 ==> entries[k].offset == 12 - k
    ensures forall k :: 0 <= k < |entries| ==> entries[k].letter == OffsetToLetter(entries[k].offset)
    ensures forall k :: 0 <= k < |entries| ==> InZoneRange(entries[k].offset)
    ensures DistinctOffsets(entries)
  {
    entries := [LetterEntry('Z', 0)];
    var i := 1;
    while i <= 12
      invariant 1 <= i <= 13 && |entries| == i
      invariant entries[0] == LetterEntry('Z', 0)
      invariant forall k :: 1 <= k < i ==> entries[k] == LetterEntry(PositiveLetters[k], k)
    {
      entries := entries + [LetterEntry(PositiveLetters[i], i)];
      i := i + 1;
    }
    i := 1;
    while i <= 12
      invariant 1 <= i <= 13 && |entries| == 12 + i
      invariant entries[0] == LetterEntry('Z', 0)
      invariant forall k :: 1 <= k <= 12 ==> entries[k] == LetterEntry(PositiveLetters[k], k)
      invariant forall k :: 13 <= k < 12 + i ==> entries[k] == LetterEntry(NegativeLetters[k - 13], 12 - k)
    {
      entries := entries + [LetterEntry(NegativeLetters[i - 1], -i)];
      i := i + 1;
    }
  }

  /** The comparator the grid passes to `sort`: negative when `x` belongs before `y`. */
  function CompareByOffsetDescending(x: LetterEntry, y: LetterEntry): int
  {
    y.offset - x.offset
  }

  /** Every pair is in an order the comparator accepts. */
  predicate SortedByComparator(s: seq<LetterEntry>)
  {
    forall j, k :: 0 <= j < k < |s| ==> CompareByOffsetDescending(s[j], s[k]) <= 0
  }

  /**
   * `entries.sort((a, b) => b.offset - a.offset)`, in place. The engine's
   * algorithm is not visible; this is an insertion sort, and any sort meets
   * the same postcondition.
   */
  method SortByOffsetDescending(a: array<LetterEntry>)
    modifies a
    ensures SortedByComparator(a[..])
    ensures multiset(a[..]) == old(multiset(a[..]))
  {
    var i := 0;
    while i < a.Length
      invariant 0 <= i <= a.Length
      invariant SortedByComparator(a[..i])
      invariant multiset(a[..]) == old(multiset(a[..]))
    {
      InsertBackward(a, i);
      i := i + 1;
    }
    assert a[..a.Length] == a[..];
  }

  /**
   * One insertion step: `a[..i + 1]` becomes sorted, holding the same entries
   * as before (the old sorted prefix and `a[i]`), and `a[i + 1..]` is untouched.
   */
  method InsertBackward(a: array<LetterEntry>, i: nat)
    requires i < a.Length && SortedByComparator(a[..i])
    modifies a
    ensures SortedByComparator(a[..i + 1])
    ensures a[i + 1..] == old(a[i + 1..])
    ensures multiset(a[..i + 1]) == old(multiset(a[..i + 1]))
    ensures multiset(a[..]) == old(multiset(a[..]))
  {
    ghost var before := a[..];
    SiftBackward(a, i);
    PrefixMultiset(a[..], before, i + 1);
  }

  /** Moves `a[i]` back past every entry with a smaller offset. */
  method SiftBackward(a: array<LetterEntry>, i: nat)
    requires i < a.Length && SortedByComparator(a[..i])
    modifies a
    ensures SortedByComparator(a[..i + 1])
    ensures a[i + 1..] == old(a[i + 1..])
    ensures multiset(a[..]) == old(multiset(a[..]))
  {
    var j := i;
    while j > 0 && CompareByOffsetDescending(a[j - 1], a[j]) > 0
      invariant 0 <= j <= i
      invariant forall p, q :: 0 <= p < q <= i && p != j && q != j ==> a[p].offset >= a[q].offset
      invariant forall q :: j < q <= i ==> a[j].offset >= a[q].offset
      invariant 0 < j < i ==> a[j - 1].offset >= a[j + 1].offset
      invariant multiset(a[..]) == old(multiset(a[..]))
      invariant forall k :: i < k < a.Length ==> a[k] == old(a[k])
    {
      SwapAdjacent(a, j - 1);
      j := j - 1;
    }
    assert a[i + 1..] == old(a[i + 1..]);
  }

  /** Two permutations that agree from `k` on are permutations of each other up to `k`. */
  lemma PrefixMultiset(s: seq<LetterEntry>, t: seq<LetterEntry>, k: nat)
    requires k <= |s| == |t| && s[k..] == t[k..] && multiset(s) == multiset(t)
    ensures multiset(s[..k]) == multiset(t[..k])
  {
    assert s == s[..k] + s[k..];
    assert t == t[..k] + t[k..];
    var x, y, z := multiset(s[..k]), multiset(t[..k]), multiset(s[k..]);
    assert x + z == y + z;
    forall e ensures x[e] == y[e] {
      assert (x + z)[e] == (y + z)[e];
    }
  }

  /** Exchanges `a[i]` and `a[i + 1]`. */
  method SwapAdjacent(a: array<LetterEntry>, i: nat)
    requires i + 1 < a.Length
    modifies a
    ensures a[i] == old(a[i + 1]) && a[i + 1] == old(a[i])
    ensures forall k :: 0 <= k < a.Length && k != i && k != i + 1 ==> a[k] == old(a[k])
    ensures multiset(a[..]) == old(multiset(a[..]))
  {
    a[i], a[i + 1] := a[i + 1], a[i];
  }

  lemma {:induction false} AtMostOnce(s: seq<LetterEntry>, e: LetterEntry)
    requires DistinctOffsets(s)
    ensures multiset(s)[e] <= 1
  {
    if s != [] {
      assert s == [s[0]] + s[1..];
      AtMostOnce(s[1..], e);
      if e == s[0] {
        assert e !in s[1..];
      }
    }
  }

  lemma TwiceCountsTwice(s: seq<LetterEntry>, j: int, k: int)
    requires 0 <= j < k < |s| && s[j] == s[k]
    ensures multiset(s)[s[j]] >= 2
  {
    assert s == s[..j] + [s[j]] + s[j + 1..k] + [s[k]] + s[k + 1..];
  }

  /** A permutation of a list with distinct offsets has distinct offsets, drawn from that list. */
  lemma PermutationKeepsDistinct(a: seq<LetterEntry>, b: seq<LetterEntry>)
    requires multiset(a) == multiset(b) && DistinctOffsets(b)
    ensures DistinctOffsets(a)
    ensures forall k :: 0 <= k < |a| ==> a[k] in b
  {
    forall k | 0 <= k < |a| ensures a[k] in b {
      assert a[k] in multiset(a);
    }
    forall j, k | 0 <= j < k < |a| ensures a[j].offset != a[k].offset {
      if a[j].offset == a[k].offset {
        assert a[j] in multiset(b) && a[k] in multiset(b);
        var p :| 0 <= p < |b| && b[p] == a[j];
        var q :| 0 <= q < |b| && b[q] == a[k];
        assert p == q;
        TwiceCountsTwice(a, j, k);
        AtMostOnce(b, a[j]);
      }
    }
  }

  lemma {:induction false} CountdownUpper(s: seq<LetterEntry>, k: int)
    requires 0 <= k < |s| && s[0].offset <= 12
    requires forall j :: 0 < j < |s| ==> s[j - 1].offset > s[j].offset
    ensures s[k].offset <= 12 - k
  {
    if k > 0 {
      CountdownUpper(s, k - 1);
    }
  }

  lemma {:induction false} CountdownLower(s: seq<LetterEntry>, k: int)
    requires 0 <= k < |s| == 25 && s[24].offset >= -12
    requires forall j :: 0 < j < |s| ==> s[j - 1].offset > s[j].offset
    ensures s[k].offset >= 12 - k
    decreases 25 - k
  {
    if k < 24 {
      CountdownLower(s, k + 1);
    }
  }

  /** 25 distinct offsets in [-12, 12], sorted by the comparator, run 12, 11, ..., -12. */
  lemma SortedDistinctIsCountdown(s: seq<LetterEntry>)
    requires |s| == 25 && SortedByComparator(s) && DistinctOffsets(s)
    requires forall k :: 0 <= k < |s| ==> InZoneRange(s[k].offset)
    ensures forall k :: 0 <= k < |s| ==> s[k].offset == 12 - k
  {
    assert forall j :: 0 < j < |s| ==> s[j - 1].offset > s[j].offset by {
      forall j | 0 < j < |s| ensures s[j - 1].offset > s[j].offset {
        assert CompareByOffsetDescending(s[j - 1], s[j]) <= 0;
      }
    }
    forall k | 0 <= k < |s| ensures s[k].offset == 12 - k {
      CountdownUpper(s, k);
      CountdownLower(s, k);
    }
  }

  /**
   * The grid's order: `letterEntries()` sorted by descending offset runs from
   * +12 down to -12, every offset in range once, each with its own letter.
   */
  method SortedLetterEntries() returns (sorted: seq<LetterEntry>)
    ensures |sorted| == 25
    ensures forall k :: 0 <= k < |sorted| ==> sorted[k].offset == 12 - k
    ensures forall k :: 0 <= k < |sorted| ==> sorted[k].letter == OffsetToLetter(sorted[k].offset)
  {
    var entries := LetterEntries();
    var a := new LetterEntry[|entries|](k requires 0 <= k < |entries| => entries[k]);
    assert a[..] == entries;
    SortByOffsetDescending(a);
    sorted := a[..];
    PermutationKeepsDistinct(sorted, entries);
    SortedDistinctIsCountdown(sorted);
  }
}
