/**
 * The JavaScript string operations the dashboard relies on, written out:
 * ECMAScript white space and `\w`, ASCII lower-casing, `includes`,
 * `split` on one character, `trim`, `replace` with a string pattern
 * (first occurrence) and with a global regex of a literal (every
 * occurrence, left to right), `padStart`, `toString` of a natural number
 * and `Number.parseInt` with no radix.
 */
module Text {
  import opened Wrappers

  // ---------------------------------------------------------------------
  // Character classes

  /** ECMAScript `\w`: `[A-Za-z0-9_]`. */
  predicate IsWordChar(c: char)
  {
    ('A' <= c <= 'Z') || ('a' <= c <= 'z') || ('0' <= c <= '9') || c == '_'
  }

  /** ECMAScript WhiteSpace and LineTerminator code points: what `trim` and `parseInt` skip. */
  predicate IsSpace(c: char)
  {
    c == '\t' || c == '\n' || c == '\U{000B}' || c == '\U{000C}' || c == '\r' || c == ' '
    || c == '\U{00A0}' || c == '\U{1680}' || ('\U{2000}' <= c <= '\U{200A}')
    || c == '\U{2028}' || c == '\U{2029}' || c == '\U{202F}' || c == '\U{205F}'
    || c == '\U{3000}' || c == '\U{FEFF}'
  }

  predicate IsDecimalDigit(c: char)
  {
    '0' <= c <= '9'
  }

  /** ASCII `toLowerCase` of one character. */
  function LowerChar(c: char): (r: char)
    ensures 'A' <= c <= 'Z' ==> r as int == c as int + 32
    ensures !('A' <= c <= 'Z') ==> r == c
    ensures !('A' <= r <= 'Z')
  {
    if 'A' <= c <= 'Z' then (c as int + 32) as char else c
  }

  /** ASCII `toLowerCase` of a string. */
  function Lower(s: string): (r: string)
    ensures |r| == |s|
    ensures forall i :: 0 <= i < |s| ==> r[i] == LowerChar(s[i])
  {
    if s == [] then [] else [LowerChar(s[0])] + Lower(s[1..])
  }

  // ---------------------------------------------------------------------
  // Searching

  /** `s.startsWith(p)` */
  predicate StartsWith(s: string, p: string)
  {
    |p| <= |s| && s[..|p|] == p
  }

  /** `q` occurs in `s` starting at index `i`. */
  predicate OccursAt(s: string, q: string, i: int)
  {
    0 <= i <= |s| - |q| && s[i..i + |q|] == q
  }

  /** `q` occurs in `s` at some position before `p`. */
  predicate OccursBefore(s: string, q: string, p: int)
  {
    exists k :: 0 <= k < p && OccursAt(s, q, k)
  }

  /** An occurrence before `p - k` in the suffix from `k` is an occurrence before `p` in `s`. */
  lemma OccursBeforeInSuffix(s: string, k: nat, q: string, p: int)
    requires k <= |s| && OccursBefore(s[k..], q, p - k)
    ensures OccursBefore(s, q, p)
  {
    var i :| 0 <= i < p - k && OccursAt(s[k..], q, i);
    OccursInSuffix(s, k, q, i);
  }

  /** `s.includes(q)`: `q` occurs in `s` at some position. */
  predicate Includes(s: string, q: string)
  {
    exists i :: 0 <= i <= |s| && OccursAt(s, q, i)
  }

  /** Every string includes the empty string. */
  lemma IncludesEmpty(s: string)
    ensures Includes(s, "")
  {
    assert OccursAt(s, "", 0);
  }

  /** An occurrence in a suffix of `s` is an occurrence in `s`, shifted by the suffix's start. */
  lemma OccursInSuffix(s: string, k: nat, q: string, i: int)
    requires k <= |s| && OccursAt(s[k..], q, i)
    ensures OccursAt(s, q, k + i)
  {
    assert s[k..][i..i + |q|] == s[k + i..k + i + |q|];
  }

  /** An occurrence at or after position `k` is an occurrence in the suffix from `k`. */
  lemma OccursAfter(s: string, k: nat, q: string, i: int)
    requires k <= i && OccursAt(s, q, i)
    ensures OccursAt(s[k..], q, i - k)
  {
    assert s[k..][i - k..i - k + |q|] == s[i..i + |q|];
  }

  /** `s.includes(q)` on lower-cased operands: the case-insensitive search of the dashboard. */
  predicate IncludesIgnoringCase(s: string, q: string)
  {
    Includes(Lower(s), Lower(q))
  }

  // ---------------------------------------------------------------------
  // trim

  /** Removes leading white space. */
  function TrimStart(s: string): (r: string)
    ensures |r| <= |s| && r == s[|s| - |r|..]
    ensures forall i :: 0 <= i < |s| - |r| ==> IsSpace(s[i])
    ensures r != [] ==> !IsSpace(r[0])
  {
    if s != [] && IsSpace(s[0]) then TrimStart(s[1..]) else s
  }

  /** Removes trailing white space. */
  function TrimEnd(s: string): (r: string)
    ensures |r| <= |s| && r == s[..|r|]
    ensures forall i :: |r| <= i < |s| ==> IsSpace(s[i])
    ensures r != [] ==> !IsSpace(r[|r| - 1])
  {
    if s != [] && IsSpace(s[|s| - 1]) then TrimEnd(s[..|s| - 1]) else s
  }

  /** `s.trim()` */
  function Trim(s: string): string
  {
    TrimEnd(TrimStart(s))
  }

  /** What `trim` removes is white space at both ends; what it keeps neither starts nor ends with it. */
  lemma TrimSpec(s: string)
    ensures var r, a := Trim(s), |s| - |TrimStart(s)|;
      a + |r| <= |s| && r == s[a..a + |r|]
        && (forall i :: 0 <= i < a ==> IsSpace(s[i]))
        && (forall i :: a + |r| <= i < |s| ==> IsSpace(s[i]))
    ensures Trim(s) != [] ==> !IsSpace(Trim(s)[0]) && !IsSpace(Trim(s)[|Trim(s)| - 1])
  {
    TrimSlice(s);
    TrimTrailing(s);
    TrimEnds(s);
  }

  /** What `trim` keeps is the slice of `s` after the leading white space. */
  lemma TrimSlice(s: string)
    ensures var r, a := Trim(s), |s| - |TrimStart(s)|;
      a + |r| <= |s| && r == s[a..a + |r|]
  {
    var t := TrimStart(s);
    var r := TrimEnd(t);
    var a := |s| - |t|;
    assert t == s[a..];
    assert r == t[..|r|];
    SliceOfSuffix(s, a, |r|);
  }

  /** A prefix of a suffix is a slice. */
  lemma SliceOfSuffix(s: string, a: nat, n: nat)
    requires a + n <= |s|
    ensures s[a..][..n] == s[a..a + n]
  {
  }

  /** Everything after what `trim` keeps is white space. */
  lemma TrimTrailing(s: string)
    ensures var r, a := Trim(s), |s| - |TrimStart(s)|;
      forall i :: a + |r| <= i < |s| ==> IsSpace(s[i])
  {
    var t := TrimStart(s);
    var r := TrimEnd(t);
    SpacesInSuffix(s, |s| - |t|, |r|);
  }

  /** White space from position `lo` of a suffix on is white space from the matching position of the whole. */
  lemma SpacesInSuffix(s: string, a: nat, lo: nat)
    requires a <= |s| && forall i :: lo <= i < |s| - a ==> IsSpace(s[a..][i])
    ensures forall i :: a + lo <= i < |s| ==> IsSpace(s[i])
  {
    forall i | a + lo <= i < |s| ensures IsSpace(s[i]) {
      assert s[i] == s[a..][i - a];
    }
  }

  /** What `trim` keeps neither starts nor ends with white space. */
  lemma TrimEnds(s: string)
    ensures Trim(s) != [] ==> !IsSpace(Trim(s)[0]) && !IsSpace(Trim(s)[|Trim(s)| - 1])
  {
    var t := TrimStart(s);
    var r := TrimEnd(t);
    if r != [] {
      assert r[0] == t[0];
    }
  }

  /** A trimmed string is empty exactly when the string is made only of white space. */
  lemma TrimEmptyIff(s: string)
    ensures Trim(s) == [] <==> forall i :: 0 <= i < |s| ==> IsSpace(s[i])
  {
    var t := TrimStart(s);
    if t != [] {
      assert s[|s| - |t|] == t[0];
    }
  }

  // ---------------------------------------------------------------------
  // replace

  /** Index of the first occurrence of `c` in `s`, or `|s|` when there is none. */
  function IndexOf(s: string, c: char): (i: nat)
    ensures i <= |s|
    ensures c !in s[..i]
    ensures i < |s| ==> s[i] == c
    ensures i == |s| <==> c !in s
  {
    if s == [] then 0
    else if s[0] == c then 0
    else 1 + IndexOf(s[1..], c)
  }

  /**
   * `s.replace("@", "")` with a one-character string pattern: only the
   * FIRST occurrence of `c` is removed.
   */
  function RemoveFirst(s: string, c: char): (r: string)
    ensures c !in s ==> r == s
    ensures c in s ==> |r| == |s| - 1
  {
    var i := IndexOf(s, c);
    if i == |s| then s else s[..i] + s[i + 1..]
  }

  /** RemoveFirst keeps everything before and after the first occurrence, so a later occurrence survives. */
  lemma RemoveFirstSpec(s: string, c: char)
    requires c in s
    ensures var i := IndexOf(s, c);
      RemoveFirst(s, c) == s[..i] + s[i + 1..] && c !in s[..i]
    ensures (exists j :: IndexOf(s, c) < j < |s| && s[j] == c) ==> c in RemoveFirst(s, c)
  {
    var i := IndexOf(s, c);
    if j :| i < j < |s| && s[j] == c {
      CutKeepsLater(s, i, j);
    }
  }

  /** Cutting out position `i` moves a later character one place to the left. */
  lemma CutKeepsLater(s: string, i: nat, j: nat)
    requires i < j < |s|
    ensures (s[..i] + s[i + 1..])[j - 1] == s[j]
  {
  }

  /**
   * `s.replace(/pat/g, rep)` for a regular expression that matches the
   * literal `pat`: occurrences are found left to right and do not overlap.
   */
  function ReplaceAll(s: string, pat: string, rep: string): (r: string)
    requires pat != []
    decreases |s|
  {
    if |s| < |pat| then s
    else if s[..|pat|] == pat then rep + ReplaceAll(s[|pat|..], pat, rep)
    else [s[0]] + ReplaceAll(s[1..], pat, rep)
  }

  /** With no occurrence of the pattern, replacement changes nothing. */
  lemma {:induction false} ReplaceAllAbsent(s: string, pat: string, rep: string)
    requires pat != [] && !Includes(s, pat)
    ensures ReplaceAll(s, pat, rep) == s
    decreases |s|
  {
    if |s| >= |pat| {
      assert !OccursAt(s, pat, 0);
      forall i | 0 <= i <= |s[1..]| ensures !OccursAt(s[1..], pat, i) {
        assert !OccursAt(s, pat, i + 1);
        if i <= |s[1..]| - |pat| {
          assert s[1..][i..i + |pat|] == s[i + 1..i + 1 + |pat|];
        }
      }
      ReplaceAllAbsent(s[1..], pat, rep);
      assert [s[0]] + s[1..] == s;
    }
  }

  /** An occurrence at the front is replaced, and scanning resumes after it. */
  lemma ReplaceAllAtFront(pat: string, rest: string, rep: string)
    requires pat != []
    ensures ReplaceAll(pat + rest, pat, rep) == rep + ReplaceAll(rest, pat, rep)
  {
    assert (pat + rest)[..|pat|] == pat;
    assert (pat + rest)[|pat|..] == rest;
  }

  /**
   * Text that cannot start an occurrence (it lacks the pattern's first
   * character) is copied unchanged, and scanning resumes after it.
   */
  lemma {:induction false} ReplaceAllPassesOver(x: string, rest: string, pat: string, rep: string)
    requires pat != [] && pat[0] !in x
    ensures ReplaceAll(x + rest, pat, rep) == x + ReplaceAll(rest, pat, rep)
    decreases |x|
  {
    if x != [] {
      var s := x + rest;
      assert s[1..] == x[1..] + rest;
      if |s| >= |pat| {
        assert s[0] == x[0] && s[..|pat|][0] == s[0];
      }
      ReplaceAllPassesOver(x[1..], rest, pat, rep);
      assert x == [x[0]] + x[1..];
    } else {
      assert x + rest == rest;
    }
  }

  /**
   * The scan copies the chunk `c` when it is followed by `rest`: the
   * pattern does not occur where `c` starts, and no later character of `c`
   * can start it.
   */
  predicate Copied(c: string, rest: string, pat: string)
  {
    c != [] && pat != [] && pat[0] !in c[1..] && !OccursAt(c + rest, pat, 0)
  }

  /**
   * A chunk that does not itself start with the pattern is copied when what
   * follows it cannot complete the pattern: either nothing follows, or the
   * next character differs from the pattern's character at that position.
   */
  lemma NextCharCopied(c: string, rest: string, pat: string)
    requires c != [] && pat != [] && pat[0] !in c[1..] && !StartsWith(c, pat)
    requires |c| < |pat| && rest != [] ==> rest[0] != pat[|c|]
    ensures Copied(c, rest, pat)
  {
    var s := c + rest;
    if |s| >= |pat| {
      if |c| >= |pat| {
        assert s[0..|pat|] == c[..|pat|];
      } else {
        assert s[0..|pat|][|c|] == rest[0];
      }
    }
  }

  /** A chunk that differs from the pattern at a position both have is copied. */
  lemma MismatchCopied(c: string, rest: string, pat: string, k: nat)
    requires pat != [] && k < |c| && k < |pat| && c[k] != pat[k] && pat[0] !in c[1..]
    ensures Copied(c, rest, pat)
  {
    var s := c + rest;
    if |s| >= |pat| {
      assert s[0..|pat|][k] == c[k];
    }
  }

  /** One step of the scan at the front of non-empty text. */
  lemma ReplaceAllFront(s: string, pat: string, rep: string)
    requires pat != [] && s != []
    ensures StartsWith(s, pat) ==> ReplaceAll(s, pat, rep) == rep + ReplaceAll(s[|pat|..], pat, rep)
    ensures !StartsWith(s, pat) ==> ReplaceAll(s, pat, rep) == [s[0]] + ReplaceAll(s[1..], pat, rep)
  {
    if |s| < |pat| {
      ReplaceAllShort(s[1..], pat, rep);
      assert [s[0]] + s[1..] == s;
    }
  }

  /**
   * A chunk that does not start an occurrence, and whose later characters
   * cannot start one either, is copied unchanged.
   */
  lemma ReplaceAllPassesChunk(c: string, rest: string, pat: string, rep: string)
    requires Copied(c, rest, pat)
    ensures ReplaceAll(c + rest, pat, rep) == c + ReplaceAll(rest, pat, rep)
  {
    var x := ReplaceAll(rest, pat, rep);
    ReplaceAllChunkHead(c, rest, pat, rep);
    ReplaceAllPassesOver(c[1..], rest, pat, rep);
    ConsTail(c, x);
  }

  /** Putting the first character back in front of the rest of a string and what follows it. */
  lemma ConsTail(c: string, x: string)
    requires c != []
    ensures [c[0]] + (c[1..] + x) == c + x
  {
    assert [c[0]] + c[1..] == c;
  }

  /** A chunk that does not start an occurrence: its first character is copied and scanning moves on by one. */
  lemma ReplaceAllChunkHead(c: string, rest: string, pat: string, rep: string)
    requires pat != [] && c != [] && !OccursAt(c + rest, pat, 0)
    ensures ReplaceAll(c + rest, pat, rep) == [c[0]] + ReplaceAll(c[1..] + rest, pat, rep)
  {
    var s := c + rest;
    assert s[1..] == c[1..] + rest;
    if |s| >= |pat| {
      assert s[..|pat|] == s[0..0 + |pat|];
    } else {
      ReplaceAllShort(s[1..], pat, rep);
      assert [s[0]] + s[1..] == s;
    }
  }

  /** Text shorter than the pattern is left as it is. */
  lemma ReplaceAllShort(s: string, pat: string, rep: string)
    requires pat != [] && |s| < |pat|
    ensures ReplaceAll(s, pat, rep) == s
  {
  }

  /**
   * One global replacement over text that cannot start an occurrence,
   * followed by a chunk that is either the pattern itself or is copied
   * when followed by the rest, followed by the rest.
   */
  lemma ReplaceAllStep(x: string, c: string, rest: string, pat: string, rep: string)
    requires pat != [] && pat[0] !in x
    requires c == pat || c == [] || Copied(c, rest, pat)
    ensures ReplaceAll(x + c + rest, pat, rep)
      == x + (if c == pat then rep else c) + ReplaceAll(rest, pat, rep)
  {
    var mid, tail := if c == pat then rep else c, ReplaceAll(rest, pat, rep);
    ConcatAssoc(x, c, rest);
    ReplaceAllPassesOver(x, c + rest, pat, rep);
    ReplaceAllChunk(c, rest, pat, rep);
    ConcatAssoc(x, mid, tail);
  }

  lemma ConcatAssoc(a: string, b: string, c: string)
    ensures a + b + c == a + (b + c)
  {
  }

  /** A chunk that is the pattern is replaced; one that cannot start an occurrence is copied. */
  lemma ReplaceAllChunk(c: string, rest: string, pat: string, rep: string)
    requires pat != []
    requires c == pat || c == [] || Copied(c, rest, pat)
    ensures ReplaceAll(c + rest, pat, rep) == (if c == pat then rep else c) + ReplaceAll(rest, pat, rep)
  {
    if c == pat {
      ReplaceAllAtFront(pat, rest, rep);
    } else if c == [] {
      assert c + rest == rest;
    } else {
      ReplaceAllPassesChunk(c, rest, pat, rep);
    }
  }

  // ---------------------------------------------------------------------
  // split

  /** `parts.join(sep)` */
  function Join(parts: seq<string>, sep: char): string
    requires |parts| >= 1
  {
    if |parts| == 1 then parts[0] else parts[0] + [sep] + Join(parts[1..], sep)
  }

  /**
   * `s.split(sep)` with a one-character separator: always at least one
   * piece (`"".split(",")` is `[""]`), empty pieces kept.
   */
  function Split(s: string, sep: char): (parts: seq<string>)
    ensures |parts| >= 1
    ensures Join(parts, sep) == s
    ensures forall i :: 0 <= i < |parts| ==> sep !in parts[i]
  {
    if s == [] then [""]
    else
      var rest := Split(s[1..], sep);
      if s[0] == sep then
        assert Join([""] + rest, sep) == [sep] + Join(rest, sep) by {
          assert ([""] + rest)[1..] == rest;
        }
        [""] + rest
      else
        var parts := [[s[0]] + rest[0]] + rest[1..];
        assert Join(parts, sep) == s by {
          if |rest| > 1 {
            assert parts[1..] == rest[1..];
            assert Join(rest, sep) == rest[0] + [sep] + Join(rest[1..], sep);
          }
        }
        parts
  }

  /** Splitting a joined list of separator-free pieces gives the pieces back. */
  lemma {:induction false} SplitJoin(parts: seq<string>, sep: char)
    requires |parts| >= 1
    requires forall i :: 0 <= i < |parts| ==> sep !in parts[i]
    ensures Split(Join(parts, sep), sep) == parts
  {
    if |parts| == 1 {
      SplitNoSep(parts[0], sep);
    } else {
      SplitJoin(parts[1..], sep);
      SplitAfterPiece(parts[0], Join(parts[1..], sep), sep);
      assert parts == [parts[0]] + parts[1..];
    }
  }

  /** A string without the separator splits into itself alone. */
  lemma {:induction false} SplitNoSep(s: string, sep: char)
    requires sep !in s
    ensures Split(s, sep) == [s]
  {
    if s != [] {
      SplitNoSep(s[1..], sep);
      assert [s[0]] + s[1..] == s;
    }
  }

  /** A separator-free piece followed by the separator becomes the first piece. */
  lemma {:induction false} SplitAfterPiece(piece: string, rest: string, sep: char)
    requires sep !in piece
    ensures Split(piece + [sep] + rest, sep) == [piece] + Split(rest, sep)
  {
    var s := piece + [sep] + rest;
    if piece == [] {
      assert s == [sep] + rest;
      assert s[1..] == rest;
    } else {
      assert s[1..] == piece[1..] + [sep] + rest;
      SplitAfterPiece(piece[1..], rest, sep);
      assert [s[0]] + piece[1..] == piece;
    }
  }

  // ---------------------------------------------------------------------
  // Numbers

  /** The character of a decimal digit. */
  function DigitChar(d: nat): (c: char)
    requires d < 10
    ensures IsDecimalDigit(c)
  {
    ('0' as int + d) as char
  }

  /** `n.toString()` for a natural number: decimal digits without leading zeros. */
  function NatToString(n: nat): (r: string)
    ensures |r| >= 1
    ensures forall i :: 0 <= i < |r| ==> IsDecimalDigit(r[i])
    ensures (|r| == 1) <==> n < 10
  {
    if n < 10 then [DigitChar(n)] else NatToString(n / 10) + [DigitChar(n % 10)]
  }

  /** `s.padStart(width, c)` */
  function PadStart(s: string, width: nat, c: char): (r: string)
    ensures |s| >= width ==> r == s
    ensures |s| < width ==> |r| == width && r[width - |s|..] == s
    ensures forall i :: 0 <= i < |r| - |s| ==> r[i] == c
    decreases width - |s|
  {
    if |s| >= width then s else PadStart([c] + s, width, c)
  }

  /** Value of a digit character in radix 10 or 16 (letters either case), if it is one. */
  function DigitValue(c: char, radix: nat): (r: Option<nat>)
    ensures r.Some? ==> r.value < radix
  {
    var v :=
      if '0' <= c <= '9' then Some(c as int - '0' as int)
      else if 'a' <= c <= 'z' then Some(c as int - 'a' as int + 10)
      else if 'A' <= c <= 'Z' then Some(c as int - 'A' as int + 10)
      else None;
    if v.Some? && v.value < radix then Some(v.value as nat) else None
  }

  /** Length of the longest prefix of `s` made of digits of the radix. */
  function DigitPrefix(s: string, radix: nat): (n: nat)
    ensures n <= |s|
    ensures forall i :: 0 <= i < n ==> DigitValue(s[i], radix).Some?
    ensures n < |s| ==> DigitValue(s[n], radix).None?
  {
    if s != [] && DigitValue(s[0], radix).Some? then 1 + DigitPrefix(s[1..], radix) else 0
  }

  /** Value of a string of digits, most significant first. */
  function DigitsValue(ds: string, radix: nat): nat
    requires forall i :: 0 <= i < |ds| ==> DigitValue(ds[i], radix).Some?
  {
    if ds == [] then 0
    else
      var init := ds[..|ds| - 1];
      assert forall i :: 0 <= i < |init| ==> init[i] == ds[i];
      Shift(DigitsValue(init, radix), radix) + DigitValue(ds[|ds| - 1], radix).value
  }

  /** A value moved up one digit place. */
  function Shift(v: nat, radix: nat): nat
  {
    v * radix
  }

  /** Decimal `toString` followed by reading the digits back gives the number. */
  lemma {:induction false} NatToStringValue(n: nat)
    ensures forall i :: 0 <= i < |NatToString(n)| ==> DigitValue(NatToString(n)[i], 10).Some?
    ensures DigitsValue(NatToString(n), 10) == n
  {
    if n >= 10 {
      NatToStringValue(n / 10);
      var s := NatToString(n);
      assert s[..|s| - 1] == NatToString(n / 10);
    }
  }

  /**
   * `Number.parseInt(s)` with no radix: skip leading white space, an
   * optional sign, a `0x`/`0X` prefix switching to radix 16, then the
   * longest run of digits; no digit at all is NaN, here `None`.
   */
  function ParseInt(s: string): Option<int>
  {
    var t := TrimStart(s);
    if t != [] && t[0] == '-' then
      match ParseUnsigned(t[1..])
      case None => None
      case Some(v) => Some(-(v as int))
    else if t != [] && t[0] == '+' then
      match ParseUnsigned(t[1..])
      case None => None
      case Some(v) => Some(v)
    else
      match ParseUnsigned(t)
      case None => None
      case Some(v) => Some(v)
  }

  /** The magnitude: hexadecimal after `0x`/`0X`, decimal otherwise. */
  function ParseUnsigned(u: string): Option<nat>
  {
    if |u| >= 2 && u[0] == '0' && (u[1] == 'x' || u[1] == 'X') then ParseDigits(u[2..], 16)
    else ParseDigits(u, 10)
  }

  /** The value of the longest digit prefix, or `None` when it is empty. */
  function ParseDigits(body: string, radix: nat): (r: Option<nat>)
    ensures r.None? <==> (body == [] || DigitValue(body[0], radix).None?)
  {
    var n := DigitPrefix(body, radix);
    if n == 0 then None else Some(DigitsValue(body[..n], radix))
  }

  /** `parseInt` reads back what `toString` writes, for both signs. */
  lemma ParseIntOfDecimal(n: nat)
    ensures ParseInt(NatToString(n)) == Some(n as int)
    ensures ParseInt("-" + NatToString(n)) == Some(-(n as int))
  {
    var t := NatToString(n);
    NatToStringValue(n);
    ParseUnsignedDigits(t);
    ParseIntPlain(t, n);
    ParseIntMinus(t, n);
  }

  /** Without a sign or leading white space, `parseInt` reads the magnitude. */
  lemma ParseIntPlain(t: string, v: nat)
    requires |t| >= 1 && IsDecimalDigit(t[0]) && ParseUnsigned(t) == Some(v)
    ensures ParseInt(t) == Some(v as int)
  {
    assert !IsSpace(t[0]);
    TrimStartKeeps(t);
  }

  /** A string that starts with something other than white space has nothing to trim. */
  lemma TrimStartKeeps(t: string)
    requires |t| >= 1 && !IsSpace(t[0])
    ensures TrimStart(t) == t
  {
  }

  /** A leading minus negates whatever the rest reads as. */
  lemma ParseIntMinus(u: string, v: nat)
    requires ParseUnsigned(u) == Some(v)
    ensures ParseInt("-" + u) == Some(-(v as int))
  {
    var m := "-" + u;
    assert m[0] == '-' && !IsSpace(m[0]);
    TrimStartKeeps(m);
    assert m[1..] == u;
  }

  /** A non-empty string of decimal digits is read whole, in radix 10. */
  lemma ParseUnsignedDigits(t: string)
    requires |t| >= 1 && forall i :: 0 <= i < |t| ==> IsDecimalDigit(t[i])
    ensures forall i :: 0 <= i < |t| ==> DigitValue(t[i], 10).Some?
    ensures ParseUnsigned(t) == Some(DigitsValue(t, 10))
  {
    assert forall i :: 0 <= i < |t| ==> DigitValue(t[i], 10).Some?;
    DigitPrefixAll(t, 10);
    assert t[..|t|] == t;
    assert |t| >= 2 ==> t[1] != 'x' && t[1] != 'X';
  }

  /** A string made only of digits is its own digit prefix. */
  lemma {:induction false} DigitPrefixAll(s: string, radix: nat)
    requires forall i :: 0 <= i < |s| ==> DigitValue(s[i], radix).Some?
    ensures DigitPrefix(s, radix) == |s|
  {
    if s != [] {
      DigitPrefixAll(s[1..], radix);
    }
  }
}
