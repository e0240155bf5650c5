/**
 * The string operations the relay relies on, written out as Python defines
 * them for `str`: `replace`, `split`, `join`, `strip`, `isdigit` and `int`
 * on a digit string, plus the outgoing-text filter `apply_replacements`
 * (tg_group_cloner.py:316-321).
 */
module Text {

  /** A replacement table: `(key, value)` pairs in the dict's insertion order. */
  type Table = seq<(string, string)>

  /** Every key of the table is non-empty (configparser refuses empty option names). */
  predicate KeysNonEmpty(table: Table)
  {
    forall i :: 0 <= i < |table| ==> |table[i].0| > 0
  }

  /** `k` occurs somewhere in `s` as a contiguous substring. */
  predicate Occurs(k: string, s: string)
    decreases |s|
  {
    |k| <= |s| && (k <= s || Occurs(k, s[1..]))
  }

  /**
   * Python's `s.replace(k, v)` for a non-empty `k`: scan from the left and
   * replace every non-overlapping occurrence of `k`; replaced text is never
   * scanned again.
   */
  function Replace(s: string, k: string, v: string): string
    requires |k| > 0
    decreases |s|
  {
    if |s| < |k| then s
    else if k <= s then v + Replace(s[|k|..], k, v)
    else [s[0]] + Replace(s[1..], k, v)
  }

  /** Python's `s.split(k)` for a non-empty separator `k`. */
  function Split(s: string, k: string): (parts: seq<string>)
    requires |k| > 0
    ensures |parts| >= 1
    decreases |s|
  {
    if |s| < |k| then [s]
    else if k <= s then [[]] + Split(s[|k|..], k)
    else
      var rest := Split(s[1..], k);
      [[s[0]] + rest[0]] + rest[1..]
  }

  /** Python's `sep.join(parts)`. */
  function Join(parts: seq<string>, sep: string): string
  {
    if |parts| == 0 then []
    else if |parts| == 1 then parts[0]
    else parts[0] + sep + Join(parts[1..], sep)
  }

  lemma JoinExtendFirst(c: string, parts: seq<string>, sep: string)
    requires |parts| >= 1
    ensures Join([c + parts[0]] + parts[1..], sep) == c + Join(parts, sep)
  {
    var q := [c + parts[0]] + parts[1..];
    assert q[1..] == parts[1..];
  }

  lemma JoinEmptyFirst(parts: seq<string>, sep: string)
    requires |parts| >= 1
    ensures Join([[]] + parts, sep) == sep + Join(parts, sep)
  {
    assert ([[]] + parts)[1..] == parts;
  }

  /** `replace` is `join` of the pieces `split` cuts out: `s.replace(k, v) == v.join(s.split(k))`. */
  lemma {:induction false} ReplaceIsJoinOfSplit(s: string, k: string, v: string)
    requires |k| > 0
    ensures Replace(s, k, v) == Join(Split(s, k), v)
    decreases |s|
  {
    if |s| < |k| {
    } else if k <= s {
      ReplaceIsJoinOfSplit(s[|k|..], k, v);
      JoinEmptyFirst(Split(s[|k|..], k), v);
    } else {
      ReplaceIsJoinOfSplit(s[1..], k, v);
      JoinExtendFirst([s[0]], Split(s[1..], k), v);
    }
  }

  /** The first piece of a split is a prefix of the string and holds no occurrence of the separator. */
  lemma {:induction false} SplitFirstPiece(s: string, k: string)
    requires |k| > 0
    ensures Split(s, k)[0] <= s && !Occurs(k, Split(s, k)[0])
    decreases |s|
  {
    if |s| >= |k| && !(k <= s) {
      SplitFirstPiece(s[1..], k);
      var p := Split(s, k)[0];
      assert p == [s[0]] + Split(s[1..], k)[0];
      assert p[1..] == Split(s[1..], k)[0];
    }
  }

  /**
   * No piece that `split` cuts out contains the separator, whatever its
   * length: with `ReplaceIsJoinOfSplit`, every occurrence of `k` is replaced.
   */
  lemma {:induction false} SplitPiecesLackSeparator(s: string, k: string)
    requires |k| > 0
    ensures forall p :: p in Split(s, k) ==> !Occurs(k, p)
    decreases |s|
  {
    if |s| < |k| {
      SplitFirstPiece(s, k);
    } else if k <= s {
      SplitPiecesLackSeparator(s[|k|..], k);
      assert !Occurs(k, []);
    } else {
      SplitPiecesLackSeparator(s[1..], k);
      SplitFirstPiece(s, k);
      var rest := Split(s[1..], k);
      forall p | p in Split(s, k) ensures !Occurs(k, p) {
        if p != Split(s, k)[0] {
          assert p in rest[1..];
        }
      }
    }
  }

  /** Replacing a key by itself changes nothing. */
  lemma {:induction false} ReplaceBySelf(s: string, k: string)
    requires |k| > 0
    ensures Replace(s, k, k) == s
    decreases |s|
  {
    if |s| < |k| {
    } else if k <= s {
      ReplaceBySelf(s[|k|..], k);
      assert s == s[..|k|] + s[|k|..];
    } else {
      ReplaceBySelf(s[1..], k);
      assert s == [s[0]] + s[1..];
    }
  }

  /** Joining the pieces of a split with the same separator gives back the string. */
  lemma JoinSplitRoundTrip(s: string, k: string)
    requires |k| > 0
    ensures Join(Split(s, k), k) == s
  {
    ReplaceIsJoinOfSplit(s, k, k);
    ReplaceBySelf(s, k);
  }

  /** A key that does not occur leaves the text unchanged, whatever the value. */
  lemma {:induction false} ReplaceAbsentKey(s: string, k: string, v: string)
    requires |k| > 0
    requires !Occurs(k, s)
    ensures Replace(s, k, v) == s
    decreases |s|
  {
    if |s| >= |k| {
      ReplaceAbsentKey(s[1..], k, v);
      assert s == [s[0]] + s[1..];
    }
  }

  /**
   * The specification of `apply_replacements` (tg_group_cloner.py:319-320):
   * a left fold of `replace` over the table, one full pass per entry in
   * table order.
   */
  function ReplaceAll(table: Table, s: string): string
    requires KeysNonEmpty(table)
  {
    if |table| == 0 then s
    else
      var last := table[|table| - 1];
      Replace(ReplaceAll(table[..|table| - 1], s), last.0, last.1)
  }

  /** Running two tables one after the other is running their concatenation. */
  lemma {:induction false} ReplaceAllConcat(t1: Table, t2: Table, s: string)
    requires KeysNonEmpty(t1) && KeysNonEmpty(t2)
    ensures KeysNonEmpty(t1 + t2)
    ensures ReplaceAll(t1 + t2, s) == ReplaceAll(t2, ReplaceAll(t1, s))
    decreases |t2|
  {
    assert forall i :: 0 <= i < |t1 + t2| ==> (t1 + t2)[i] == if i < |t1| then t1[i] else t2[i - |t1|];
    if |t2| > 0 {
      var t2' := t2[..|t2| - 1];
      assert (t1 + t2)[..|t1 + t2| - 1] == t1 + t2';
      ReplaceAllConcat(t1, t2', s);
    } else {
      assert t1 + t2 == t1;
    }
  }

  /** The empty text stays empty under any table, so the early return at line 317 agrees with the fold. */
  lemma {:induction false} ReplaceAllOfEmpty(table: Table)
    requires KeysNonEmpty(table)
    ensures ReplaceAll(table, []) == []
    decreases |table|
  {
    if |table| > 0 {
      ReplaceAllOfEmpty(table[..|table| - 1]);
    }
  }

  /** An entry whose key does not occur in what the earlier entries produced is a no-op. */
  lemma ReplaceAllSkipsAbsentKey(table: Table, k: string, v: string, s: string)
    requires KeysNonEmpty(table) && |k| > 0
    requires !Occurs(k, ReplaceAll(table, s))
    ensures KeysNonEmpty(table + [(k, v)])
    ensures ReplaceAll(table + [(k, v)], s) == ReplaceAll(table, s)
  {
    assert (table + [(k, v)])[..|table|] == table;
    ReplaceAbsentKey(ReplaceAll(table, s), k, v);
  }

  /**
   * `apply_replacements` (tg_group_cloner.py:316-321): empty text is returned
   * as it is; otherwise each entry's `replace` is applied in turn.
   */
  method ApplyReplacements(table: Table, text: string) returns (r: string)
    requires KeysNonEmpty(table)
    ensures r == ReplaceAll(table, text)
    ensures |text| == 0 ==> r == text
  {
    if |text| == 0 {
      ReplaceAllOfEmpty(table);
      return text;
    }
    r := text;
    for i := 0 to |table|
      invariant r == ReplaceAll(table[..i], text)
    {
      assert table[..i + 1][..i] == table[..i];
      r := Replace(r, table[i].0, table[i].1);
    }
    assert table[..|table|] == table;
  }

  /** Python's `str.isspace` for one character, by code point (what `strip()` removes). */
  predicate IsSpace(c: char)
  {
    var n := c as int;
    (0x09 <= n <= 0x0d) || (0x1c <= n <= 0x20) || n == 0x85 || n == 0xa0 || n == 0x1680
    || (0x2000 <= n <= 0x200a) || n == 0x2028 || n == 0x2029 || n == 0x202f
    || n == 0x205f || n == 0x3000
  }

  /** Python's `s.lstrip()`: the longest suffix of `s` that does not start with white space. */
  function StripLeft(s: string): (r: string)
    ensures |r| <= |s| && r == s[|s| - |r|..]
    ensures forall i :: 0 <= i < |s| - |r| ==> IsSpace(s[i])
    ensures |r| > 0 ==> !IsSpace(r[0])
    decreases |s|
  {
    if |s| > 0 && IsSpace(s[0]) then StripLeft(s[1..]) else s
  }

  /** Python's `s.rstrip()`: the longest prefix of `s` that does not end with white space. */
  function StripRight(s: string): (r: string)
    ensures |r| <= |s| && r == s[..|r|]
    ensures forall i :: |r| <= i < |s| ==> IsSpace(s[i])
    ensures |r| > 0 ==> !IsSpace(r[|r| - 1])
    decreases |s|
  {
    if |s| > 0 && IsSpace(s[|s| - 1]) then StripRight(s[..|s| - 1]) else s
  }

  /** Python's `s.strip()`. */
  function Strip(s: string): string
  {
    StripRight(StripLeft(s))
  }

  /** A string whose ends are not white space is its own strip. */
  lemma StripUnchanged(s: string)
    requires |s| > 0 ==> !IsSpace(s[0]) && !IsSpace(s[|s| - 1])
    ensures Strip(s) == s
  {
  }

  predicate IsDigitChar(c: char)
  {
    '0' <= c <= '9'
  }

  /** Python's `s.isdigit()` restricted to ASCII digits: at least one character, all digits. */
  predicate IsDigits(s: string)
  {
    |s| > 0 && forall i :: 0 <= i < |s| ==> IsDigitChar(s[i])
  }

  /** Python's `int(s)` on a string of ASCII digits (leading zeros allowed). */
  function ParseDecimal(s: string): nat
    requires forall i :: 0 <= i < |s| ==> IsDigitChar(s[i])
  {
    if |s| == 0 then 0
    else
      assert IsDigitChar(s[|s| - 1]);
      ParseDecimal(s[..|s| - 1]) * 10 + (s[|s| - 1] as int - '0' as int)
  }

  /** Python's `str(n)` for a non-negative integer. */
  function ShowDecimal(n: nat): (r: string)
    ensures IsDigits(r)
  {
    var d := ['0' + (n % 10) as char];
    if n < 10 then d else ShowDecimal(n / 10) + d
  }

  /** `int(str(n)) == n`. */
  lemma {:induction false} ParseShowRoundTrip(n: nat)
    ensures ParseDecimal(ShowDecimal(n)) == n
  {
    var s := ShowDecimal(n);
    if n >= 10 {
      ParseShowRoundTrip(n / 10);
      assert s[..|s| - 1] == ShowDecimal(n / 10);
    }
  }

  /** The decimal rendering has no white space at either end, so `strip` keeps it. */
  lemma StripShow(n: nat)
    ensures Strip(ShowDecimal(n)) == ShowDecimal(n)
  {
    var s := ShowDecimal(n);
    StripUnchanged(s);
  }
}
