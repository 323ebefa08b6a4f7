/**
 The small part of JavaScript's value semantics that the notes application's
 components depend on: optional props and their truthiness, `String.prototype.trim`
 (section 22.1.3.32 of ECMA-262, 2024 edition), `String.prototype.split` on a single
 character, substring search, and the decimal rendering of a non-negative integer.
 */
module Js {

  /** An optional prop or field: `None` is `undefined` (or a missing key). */
  datatype Option<+T> = None | Some(value: T) {
    function GetOr(default: T): T {
      match this
      case Some(v) => v
      case None => default
    }
  }

  /** A reference to a callback supplied by a caller; only its identity matters to the model. */
  datatype Handler = Handler(name: string)

  /** JavaScript truthiness of an optional string: `undefined` and `""` are both falsy. */
  predicate Truthy(s: Option<string>) {
    s.Some? && s.value != ""
  }

  /** The expression `s || fallback` for an optional string. */
  function Or(s: Option<string>, fallback: string): string {
    if Truthy(s) then s.value else fallback
  }

  // ---------------------------------------------------------------------------
  // String.prototype.trim

  /** WhiteSpace (section 12.2) or LineTerminator (section 12.3) of ECMA-262: the
      code points `trim` strips. The Zs category is written out as of Unicode 15. */
  predicate IsWhiteSpace(c: char) {
    var n := c as int;
    || n == 0x09 || n == 0x0B || n == 0x0C || n == 0x20 || n == 0xA0 || n == 0xFEFF
    || n == 0x1680 || (0x2000 <= n <= 0x200A) || n == 0x202F || n == 0x205F || n == 0x3000
    || n == 0x0A || n == 0x0D || n == 0x2028 || n == 0x2029
  }

  predicate AllWhiteSpace(s: string) {
    forall k :: 0 <= k < |s| ==> IsWhiteSpace(s[k])
  }

  /** Neither end of `s` is white space (vacuously true of the empty string). */
  predicate Unpadded(s: string) {
    s == [] || (!IsWhiteSpace(s[0]) && !IsWhiteSpace(s[|s| - 1]))
  }

  /** `s` with its leading white space removed. */
  function TrimStart(s: string): (r: string)
    ensures |r| <= |s|
    decreases |s|
  {
    if s != [] && IsWhiteSpace(s[0]) then TrimStart(s[1..]) else s
  }

  /** `TrimStart` cuts a prefix of white space and stops at the first other character. */
  lemma {:induction false} TrimStartSpec(s: string)
    ensures TrimStart(s) == s[|s| - |TrimStart(s)|..]
    ensures forall k :: 0 <= k < |s| - |TrimStart(s)| ==> IsWhiteSpace(s[k])
    ensures TrimStart(s) != [] ==> !IsWhiteSpace(TrimStart(s)[0])
    decreases |s|
  {
    if s != [] && IsWhiteSpace(s[0]) {
      TrimStartSpec(s[1..]);
      var r := TrimStart(s);
      assert r == TrimStart(s[1..]);
      forall k | 1 <= k < |s| - |r|
        ensures IsWhiteSpace(s[k])
      {
        assert s[k] == s[1..][k - 1];
      }
    }
  }

  /** `s` with its trailing white space removed. */
  function TrimEnd(s: string): (r: string)
    ensures |r| <= |s|
    decreases |s|
  {
    if s != [] && IsWhiteSpace(s[|s| - 1]) then TrimEnd(s[..|s| - 1]) else s
  }

  /** `TrimEnd` cuts a suffix of white space and stops at the last other character. */
  lemma {:induction false} TrimEndSpec(s: string)
    ensures TrimEnd(s) == s[..|TrimEnd(s)|]
    ensures forall k :: |TrimEnd(s)| <= k < |s| ==> IsWhiteSpace(s[k])
    ensures TrimEnd(s) != [] ==> !IsWhiteSpace(TrimEnd(s)[|TrimEnd(s)| - 1])
    decreases |s|
  {
    if s != [] && IsWhiteSpace(s[|s| - 1]) {
      var t := s[..|s| - 1];
      TrimEndSpec(t);
      var r := TrimEnd(s);
      assert r == TrimEnd(t);
      assert r == t[..|r|] == s[..|r|];
      forall k | |r| <= k < |s| - 1
        ensures IsWhiteSpace(s[k])
      {
        assert s[k] == t[k];
      }
    }
  }

  /** `r` is the slice `s[i..j]`, only white space lies outside it, and neither end
      of `r` is white space. */
  predicate TrimBounds(r: string, s: string, i: int, j: int) {
    && 0 <= i <= j <= |s| && r == s[i..j] && Unpadded(r)
    && (forall k :: 0 <= k < i ==> IsWhiteSpace(s[k]))
    && (forall k :: j <= k < |s| ==> IsWhiteSpace(s[k]))
  }

  /** `r` is `s` with white space cut from both ends. */
  ghost predicate IsTrimOf(r: string, s: string) {
    exists i, j :: TrimBounds(r, s, i, j)
  }

  /** `String.prototype.trim`. */
  function Trim(s: string): (r: string)
    ensures |r| <= |s|
  {
    TrimEnd(TrimStart(s))
  }

  /** `trim` cuts exactly the white space at both ends. */
  lemma TrimSpec(s: string)
    ensures IsTrimOf(Trim(s), s)
  {
    var t := TrimStart(s);
    var r := TrimEnd(t);
    TrimStartSpec(s);
    TrimEndSpec(t);
    TrimBoundsCompose(s, t, r);
    assert TrimBounds(Trim(s), s, |s| - |t|, |s| - |t| + |r|);
  }

  /** Cutting white space from the front, then from the back, leaves a trim. */
  lemma TrimBoundsCompose(s: string, t: string, r: string)
    requires |t| <= |s| && t == s[|s| - |t|..]
    requires forall k :: 0 <= k < |s| - |t| ==> IsWhiteSpace(s[k])
    requires t != [] ==> !IsWhiteSpace(t[0])
    requires |r| <= |t| && r == t[..|r|]
    requires forall k :: |r| <= k < |t| ==> IsWhiteSpace(t[k])
    requires r != [] ==> !IsWhiteSpace(r[|r| - 1])
    ensures TrimBounds(r, s, |s| - |t|, |s| - |t| + |r|)
  {
    var i := |s| - |t|;
    assert s[i..i + |r|] == r;
    if r != [] {
      assert r[0] == t[0];
    }
    forall k | i + |r| <= k < |s|
      ensures IsWhiteSpace(s[k])
    {
      assert s[k] == t[k - i];
    }
  }

  /** Two positions that each have only white space before them and are not white space
      themselves coincide. */
  lemma FirstNonWhiteUnique(s: string, a: int, b: int)
    requires 0 <= a < |s| && 0 <= b < |s| && !IsWhiteSpace(s[a]) && !IsWhiteSpace(s[b])
    requires forall k :: 0 <= k < a ==> IsWhiteSpace(s[k])
    requires forall k :: 0 <= k < b ==> IsWhiteSpace(s[k])
    ensures a == b
  {
  }

  lemma LastNonWhiteUnique(s: string, a: int, b: int)
    requires 0 <= a < |s| && 0 <= b < |s| && !IsWhiteSpace(s[a]) && !IsWhiteSpace(s[b])
    requires forall k :: a < k < |s| ==> IsWhiteSpace(s[k])
    requires forall k :: b < k < |s| ==> IsWhiteSpace(s[k])
    ensures a == b
  {
  }

  /** A trim is empty exactly when every character is white space. */
  lemma EmptyTrimBounds(r: string, s: string, i: int, j: int)
    requires TrimBounds(r, s, i, j)
    ensures r == [] <==> AllWhiteSpace(s)
  {
    if r != [] {
      assert s[i] == r[0];
    }
  }

  /** At most one string is the trim of a given string. */
  lemma TrimOfUnique(r1: string, r2: string, s: string)
    requires IsTrimOf(r1, s) && IsTrimOf(r2, s)
    ensures r1 == r2
  {
    var i1, j1 :| TrimBounds(r1, s, i1, j1);
    var i2, j2 :| TrimBounds(r2, s, i2, j2);
    EmptyTrimBounds(r1, s, i1, j1);
    EmptyTrimBounds(r2, s, i2, j2);
    if r1 != [] && r2 != [] {
      assert s[i1] == r1[0] && s[j1 - 1] == r1[|r1| - 1];
      assert s[i2] == r2[0] && s[j2 - 1] == r2[|r2| - 1];
      FirstNonWhiteUnique(s, i1, i2);
      LastNonWhiteUnique(s, j1 - 1, j2 - 1);
    }
  }

  /** Padding an unpadded string with white space on either side does not change its trim. */
  lemma TrimOfPadded(p: string, t: string, q: string)
    requires AllWhiteSpace(p) && AllWhiteSpace(q) && Unpadded(t)
    ensures Trim(p + t + q) == t
  {
    var s := p + t + q;
    assert s[|p|..|p| + |t|] == t;
    assert forall k :: 0 <= k < |p| ==> s[k] == p[k];
    assert forall k :: |p| + |t| <= k < |s| ==> s[k] == q[k - |p| - |t|];
    assert TrimBounds(t, s, |p|, |p| + |t|);
    TrimSpec(s);
    TrimOfUnique(Trim(s), t, s);
  }

  /** `trim` leaves a string unchanged exactly when neither end is white space. */
  lemma TrimFixedPoint(s: string)
    ensures Trim(s) == s <==> Unpadded(s)
  {
    if Unpadded(s) {
      TrimOfPadded([], s, []);
      assert [] + s + [] == s;
    }
  }

  /** What `trim` returns has no white space at either end. */
  lemma TrimUnpadded(s: string)
    ensures Unpadded(Trim(s))
  {
    TrimSpec(s);
    var i, j :| TrimBounds(Trim(s), s, i, j);
  }

  /** `trim` is idempotent. */
  lemma TrimIdempotent(s: string)
    ensures Trim(Trim(s)) == Trim(s)
  {
    TrimUnpadded(s);
    TrimFixedPoint(Trim(s));
  }

  /** `trim` yields the empty string exactly on all-white-space input. */
  lemma TrimEmpty(s: string)
    ensures Trim(s) == "" <==> AllWhiteSpace(s)
  {
    if AllWhiteSpace(s) {
      TrimOfPadded(s, [], []);
      assert s + [] + [] == s;
    } else {
      var r := Trim(s);
      TrimSpec(s);
      var i, j :| TrimBounds(r, s, i, j);
      EmptyTrimBounds(r, s, i, j);
    }
  }

  // ---------------------------------------------------------------------------
  // String.prototype.split with a one-character separator

  /** `s.split(sep)` for a one-character separator: the pieces between separators. */
  function Split(s: string, sep: char): (r: seq<string>)
    ensures |r| >= 1
    ensures forall k :: 0 <= k < |r| ==> sep !in r[k]
    decreases |s|
  {
    if s == [] then [""]
    else if s[0] == sep then [""] + Split(s[1..], sep)
    else
      var rest := Split(s[1..], sep);
      [[s[0]] + rest[0]] + rest[1..]
  }

  /** `pieces.join(sep)`. */
  function Join(pieces: seq<string>, sep: char): string
    requires |pieces| >= 1
    decreases |pieces|
  {
    if |pieces| == 1 then pieces[0] else pieces[0] + [sep] + Join(pieces[1..], sep)
  }

  function Count(s: string, c: char): nat
    decreases |s|
  {
    if s == [] then 0 else (if s[0] == c then 1 else 0) + Count(s[1..], c)
  }

  /** Splitting yields one more piece than there are separators. */
  lemma {:induction false} SplitLength(s: string, sep: char)
    ensures |Split(s, sep)| == Count(s, sep) + 1
    decreases |s|
  {
    if s != [] {
      SplitLength(s[1..], sep);
    }
  }

  /** Joining the pieces with the separator gives back the original string. */
  lemma {:induction false} SplitJoin(s: string, sep: char)
    ensures Join(Split(s, sep), sep) == s
    decreases |s|
  {
    if s != [] {
      var rest := Split(s[1..], sep);
      SplitJoin(s[1..], sep);
      if s[0] == sep {
        JoinEmptyHead(rest, sep);
      } else {
        JoinExtendHead(s[0], rest, sep);
      }
      assert s == [s[0]] + s[1..];
    }
  }

  /** An empty first piece contributes only its separator. */
  lemma JoinEmptyHead(rest: seq<string>, sep: char)
    requires |rest| >= 1
    ensures Join([""] + rest, sep) == [sep] + Join(rest, sep)
  {
    assert ([""] + rest)[1..] == rest;
  }

  /** Prefixing the first piece with a character prefixes the join with it. */
  lemma JoinExtendHead(c: char, rest: seq<string>, sep: char)
    requires |rest| >= 1
    ensures Join([[c] + rest[0]] + rest[1..], sep) == [c] + Join(rest, sep)
  {
    var ps := [[c] + rest[0]] + rest[1..];
    if |rest| > 1 {
      assert ps[1..] == rest[1..];
      assert Join(ps, sep) == [c] + rest[0] + [sep] + Join(rest[1..], sep);
    }
  }

  // ---------------------------------------------------------------------------
  // Prefixes, suffixes and substring search (`startsWith`, `endsWith`, `includes`)

  predicate StartsWith(s: string, prefix: string) {
    |prefix| <= |s| && s[..|prefix|] == prefix
  }

  predicate EndsWith(s: string, suffix: string) {
    |suffix| <= |s| && s[|s| - |suffix|..] == suffix
  }

  /** `s` contains `sub` as a contiguous substring. */
  function Contains(s: string, sub: string): bool
    decreases |s|
  {
    (|sub| <= |s| && s[..|sub|] == sub) || (s != [] && Contains(s[1..], sub))
  }

  /** `sub` occurs in `s` starting at position `i`. */
  predicate OccursAt(s: string, sub: string, i: int) {
    0 <= i <= |s| - |sub| && s[i..i + |sub|] == sub
  }

  /** `Contains` agrees with the positional definition of a substring. */
  lemma {:induction false} ContainsAt(s: string, sub: string)
    ensures Contains(s, sub) <==> exists i :: OccursAt(s, sub, i)
    decreases |s|
  {
    if s == [] {
      if sub == [] {
        assert OccursAt(s, sub, 0);
      }
    } else {
      ContainsAt(s[1..], sub);
      if exists i :: OccursAt(s, sub, i) {
        var i :| OccursAt(s, sub, i);
        if i > 0 {
          assert s[1..][i - 1..i - 1 + |sub|] == sub;
          assert OccursAt(s[1..], sub, i - 1);
        } else {
          assert s[..|sub|] == sub;
        }
      }
      if Contains(s[1..], sub) {
        var i :| OccursAt(s[1..], sub, i);
        assert s[i + 1..i + 1 + |sub|] == sub;
        assert OccursAt(s, sub, i + 1);
      }
      if |sub| <= |s| && s[..|sub|] == sub {
        assert OccursAt(s, sub, 0);
      }
    }
  }

  /** A string contains each of its suffixes. */
  lemma ContainsSuffix(s: string, suffix: string)
    requires EndsWith(s, suffix)
    ensures Contains(s, suffix)
  {
    ContainsAt(s, suffix);
    assert OccursAt(s, suffix, |s| - |suffix|);
  }

  /** A string lacking one of the characters of `sub` does not contain `sub`. */
  lemma MissingCharacter(s: string, sub: string, c: char)
    requires c in sub && c !in s
    ensures !Contains(s, sub)
  {
    ContainsAt(s, sub);
  }

  // ---------------------------------------------------------------------------
  // Number to decimal string (template-literal interpolation of a non-negative integer)

  function DigitChar(d: nat): char
    requires d < 10
  {
    ('0' as int + d) as char
  }

  /** The decimal rendering of `n`, as `${n}` produces it. */
  function Decimal(n: nat): (r: string)
    ensures |r| >= 1
    ensures forall k :: 0 <= k < |r| ==> '0' <= r[k] <= '9'
    decreases n
  {
    if n < 10 then [DigitChar(n)] else Decimal(n / 10) + [DigitChar(n % 10)]
  }

  /** Reads a string of decimal digits back as a number. */
  function ParseDecimal(s: string): nat
    requires forall k :: 0 <= k < |s| ==> '0' <= s[k] <= '9'
    decreases |s|
  {
    if s == [] then 0 else 10 * ParseDecimal(s[..|s| - 1]) + (s[|s| - 1] as int - '0' as int)
  }

  /** Reading the decimal rendering back gives the number. */
  lemma {:induction false} DecimalRoundTrip(n: nat)
    ensures ParseDecimal(Decimal(n)) == n
    decreases n
  {
    var r := Decimal(n);
    if n >= 10 {
      DecimalRoundTrip(n / 10);
      assert r[..|r| - 1] == Decimal(n / 10);
      assert r[|r| - 1] as int - '0' as int == n % 10;
    } else {
      assert r[..0] == [];
    }
  }

  /** Different numbers have different decimal renderings. */
  lemma DecimalInjective(m: nat, n: nat)
    ensures Decimal(m) == Decimal(n) <==> m == n
  {
    if Decimal(m) == Decimal(n) {
      DecimalRoundTrip(m);
      DecimalRoundTrip(n);
    }
  }
}
