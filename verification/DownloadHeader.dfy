/**
 The content-disposition header of a download: the stored name made safe, its quoted ASCII fallback and
 its extended form (section 3.2.1 of RFC 5987), and the reader that gets both names back.

 Unicode tables are parameters: `control` and `whitespace` are the character tests, and where
 it matters that the dot is not whitespace, the statement says so.
 */
module DownloadHeader {
  import opened Common
  import TermList

  datatype Unicode = Unicode(control: char -> bool, whitespace: char -> bool)

  // ---------------------------------------------------------------------------------------
  // UTF-8
  // ---------------------------------------------------------------------------------------

  function Utf8(c: char): (r: Bytes)
    ensures 1 <= |r| <= 4
  {
    var n := c as int;
    if n < 0x80 then [n]
    else if n < 0x800 then [0xC0 + n / 64, 0x80 + n % 64]
    else if n < 0x10000 then [0xE0 + n / 4096, 0x80 + n / 64 % 64, 0x80 + n % 64]
    else [0xF0 + n / 262144, 0x80 + n / 4096 % 64, 0x80 + n / 64 % 64, 0x80 + n % 64]
  }

  function Utf8All(s: string): Bytes {
    if s == [] then [] else Utf8(s[0]) + Utf8All(s[1..])
  }

  predicate Scalar(n: int) {
    0 <= n < 0xD800 || 0xE000 <= n < 0x110000
  }

  function CharOf(n: int): Option<char> {
    if Scalar(n) then Some(n as char) else None
  }

  /** How many bytes the character that starts with `b` takes; 0 if none starts so. */
  function Width(b: Byte): (w: nat)
    ensures w <= 4
  {
    if b < 0x80 then 1 else if b < 0xC0 then 0 else if b < 0xE0 then 2 else if b < 0xF0 then 3 else 4
  }

  function Continue(high: int, b: int): int {
    high * 64 + (b - 0x80)
  }

  function FirstChar(s: Bytes): Option<char>
    requires s != [] && 1 <= Width(s[0]) <= |s|
  {
    match Width(s[0])
    case 1 => CharOf(s[0])
    case 2 => CharOf(Continue(s[0] - 0xC0, s[1]))
    case 3 => CharOf(Continue(Continue(s[0] - 0xE0, s[1]), s[2]))
    case _ => CharOf(Continue(Continue(Continue(s[0] - 0xF0, s[1]), s[2]), s[3]))
  }

  function DecodeUtf8(s: Bytes): Option<string> {
    if s == [] then Some([])
    else if Width(s[0]) == 0 || Width(s[0]) > |s| then None
    else
      var rest := DecodeUtf8(s[Width(s[0])..]);
      if FirstChar(s).None? || rest.None? then None else Some([FirstChar(s).value] + rest.value)
  }

  lemma SixBits(n: nat)
    ensures Continue(n / 64, 0x80 + n % 64) == n
    ensures n / 4096 == n / 64 / 64 && n / 262144 == n / 4096 / 64
  {
  }

  lemma FirstCharOf(c: char)
    ensures Width(Utf8(c)[0]) == |Utf8(c)| && FirstChar(Utf8(c)) == Some(c)
  {
    var n := c as int;
    SixBits(n);
    SixBits(n / 64);
    SixBits(n / 4096);
  }

  lemma FirstCharExtends(s: Bytes, x: Bytes)
    requires s != [] && Width(s[0]) == |s|
    ensures (s + x)[0] == s[0] && FirstChar(s + x) == FirstChar(s) && (s + x)[|s|..] == x
  {
    assert forall i :: 0 <= i < |s| ==> (s + x)[i] == s[i];
  }

  lemma Utf8Front(c: char, x: Bytes)
    ensures var s := Utf8(c) + x;
      Width(s[0]) == |Utf8(c)| && FirstChar(s) == Some(c) && s[|Utf8(c)|..] == x
  {
    FirstCharOf(c);
    FirstCharExtends(Utf8(c), x);
  }

  lemma {:induction false} Utf8RoundTrip(s: string)
    ensures DecodeUtf8(Utf8All(s)) == Some(s)
  {
    if s != [] {
      Utf8Front(s[0], Utf8All(s[1..]));
      Utf8RoundTrip(s[1..]);
      assert s == [s[0]] + s[1..];
    }
  }

  // ---------------------------------------------------------------------------------------
  // The extended value
  // ---------------------------------------------------------------------------------------

  predicate AlphaNumeric(b: int) {
    48 <= b <= 57 || 65 <= b <= 90 || 97 <= b <= 122
  }

  /** The characters that stand for themselves: `attr-char`. */
  predicate AttrChar(b: int) {
    AlphaNumeric(b) || b in {33, 35, 36, 38, 43, 45, 46, 94, 95, 96, 124, 126}
  }

  function HexDigit(n: nat): char
    requires n < 16
  {
    if n < 10 then (48 + n) as char else (55 + n) as char
  }

  function HexValue(c: char): Option<nat> {
    var n := c as int;
    if 48 <= n <= 57 then Some(n - 48) else if 65 <= n <= 70 then Some(n - 55) else None
  }

  function EncodeByte(b: Byte): string {
    if AttrChar(b) then [b as char] else ['%', HexDigit(b / 16), HexDigit(b % 16)]
  }

  function Encode(s: Bytes): string {
    if s == [] then [] else EncodeByte(s[0]) + Encode(s[1..])
  }

  lemma {:induction false} EncodeSnoc(s: Bytes, b: Byte)
    ensures Encode(s + [b]) == Encode(s) + EncodeByte(b)
  {
    if s == [] {
      assert (s + [b])[1..] == [];
    } else {
      assert (s + [b])[1..] == s[1..] + [b];
      EncodeSnoc(s[1..], b);
    }
  }

  /** `encode_rfc_5987`, byte by byte. */
  method EncodeRfc5987(filename: string) returns (encoded: string)
    ensures encoded == Encode(Utf8All(filename))
  {
    var bytes := Utf8All(filename);
    encoded := "";
    for i := 0 to |bytes|
      invariant encoded == Encode(bytes[..i])
    {
      EncodeSnoc(bytes[..i], bytes[i]);
      assert bytes[..i + 1] == bytes[..i] + [bytes[i]];
      if AttrChar(bytes[i]) {
        encoded := encoded + [bytes[i] as char];
      } else {
        encoded := encoded + ['%'];
        encoded := encoded + [HexDigit(bytes[i] / 16)];
        encoded := encoded + [HexDigit(bytes[i] % 16)];
      }
    }
    assert bytes[..|bytes|] == bytes;
  }

  /** The decoder of section 3.2.1: attribute characters and percent triplets, nothing else. */
  function Decode(s: string): Option<Bytes> {
    if s == [] then Some([])
    else if s[0] == '%' then
      if |s| < 3 || HexValue(s[1]).None? || HexValue(s[2]).None? then None
      else
        var rest := Decode(s[3..]);
        if rest.None? then None else Some([HexValue(s[1]).value * 16 + HexValue(s[2]).value] + rest.value)
    else if !AttrChar(s[0] as int) then None
    else
      var rest := Decode(s[1..]);
      if rest.None? then None else Some([s[0] as int] + rest.value)
  }

  lemma HexRoundTrip(n: nat)
    requires n < 16
    ensures HexValue(HexDigit(n)) == Some(n)
  {
  }

  /** Every byte sequence survives, so the encoding uses only what the decoder admits. */
  lemma {:induction false} EncodingRoundTrip(s: Bytes)
    ensures Decode(Encode(s)) == Some(s)
  {
    if s != [] {
      EncodingRoundTrip(s[1..]);
      var all := Encode(s);
      assert s == [s[0]] + s[1..];
      if AttrChar(s[0]) {
        assert all[0] == s[0] as char && all[1..] == Encode(s[1..]);
      } else {
        HexRoundTrip(s[0] / 16);
        HexRoundTrip(s[0] % 16);
        assert all[1] == HexDigit(s[0] / 16) && all[2] == HexDigit(s[0] % 16) && all[3..] == Encode(s[1..]);
      }
    }
  }

  predicate Printable(s: string) {
    forall i :: 0 <= i < |s| ==> ' ' <= s[i] <= '~'
  }

  lemma {:induction false} EncodingIsPrintable(s: Bytes)
    ensures Printable(Encode(s))
  {
    if s != [] {
      EncodingIsPrintable(s[1..]);
    }
  }

  // ---------------------------------------------------------------------------------------
  // The stored name made safe
  // ---------------------------------------------------------------------------------------

  predicate Separator(c: char) {
    c == '/' || c == '\\'
  }

  /** The last non-empty piece between separators, with `piece` read so far from the right. */
  function LeafFrom(s: string, piece: string): string
    decreases |s|
  {
    if s == [] then piece
    else
      var c := s[|s| - 1];
      if !Separator(c) then LeafFrom(s[..|s| - 1], [c] + piece)
      else if piece != [] then piece
      else LeafFrom(s[..|s| - 1], [])
  }

  function Leaf(s: string): string {
    LeafFrom(s, [])
  }

  function Filtered(control: char -> bool, s: string): string {
    if s == [] then []
    else (if control(s[0]) || s[0] == '"' then [] else [s[0]]) + Filtered(control, s[1..])
  }

  predicate Dot(c: char) {
    c == '.'
  }

  function Sanitized(u: Unicode, name: string): Option<string> {
    var clean := Trim(u.whitespace, TrimStart(Dot, Trim(u.whitespace, Filtered(u.control, Leaf(name)))));
    if clean == [] then None else Some(clean)
  }

  ghost predicate Every(p: char -> bool, s: string) {
    forall i :: 0 <= i < |s| ==> p(s[i])
  }

  lemma {:induction false} LeafMeaning(s: string, piece: string)
    requires Every(c => !Separator(c), piece)
    ensures Every(c => !Separator(c), LeafFrom(s, piece))
    ensures Every(c => !Separator(c), s) ==> LeafFrom(s, piece) == s + piece
    decreases |s|
  {
    if s != [] {
      var c := s[|s| - 1];
      if !Separator(c) {
        LeafMeaning(s[..|s| - 1], [c] + piece);
        assert s[..|s| - 1] + ([c] + piece) == s + piece;
      } else if piece == [] {
        LeafMeaning(s[..|s| - 1], []);
      }
    }
  }

  /** With a piece begun, the leaf reaches back to the separator before it. */
  lemma {:induction false} LeafReachesBack(s: string, piece: string) returns (i: nat)
    requires piece != []
    ensures i <= |s| && LeafFrom(s, piece) == s[i..] + piece
    ensures (forall k :: i <= k < |s| ==> !Separator(s[k])) && (i > 0 ==> Separator(s[i - 1]))
    decreases |s|
  {
    if s == [] || Separator(s[|s| - 1]) {
      i := |s|;
    } else {
      var c := s[|s| - 1];
      i := LeafReachesBack(s[..|s| - 1], [c] + piece);
      assert s[..|s| - 1][i..] + ([c] + piece) == s[i..] + piece;
    }
  }

  lemma SliceOfPrefix(s: string, n: nat, i: nat, j: nat)
    requires i <= j <= n <= |s|
    ensures s[..n][i..j] == s[i..j] && forall k :: 0 <= k < n ==> s[..n][k] == s[k]
  {
  }

  /** The leaf is the last piece between separators that is not empty; only separators follow it. */
  lemma {:induction false} LeafIsLastPiece(s: string) returns (i: nat, j: nat)
    ensures i <= j <= |s| && Leaf(s) == s[i..j]
    ensures (forall k :: i <= k < j ==> !Separator(s[k])) && (forall k :: j <= k < |s| ==> Separator(s[k]))
    ensures if i == j then j == 0 else i > 0 ==> Separator(s[i - 1])
    decreases |s|
  {
    if s == [] {
      i, j := 0, 0;
    } else if Separator(s[|s| - 1]) {
      i, j := LeafIsLastPiece(s[..|s| - 1]);
      SliceOfPrefix(s, |s| - 1, i, j);
    } else {
      j := |s|;
      var piece := [s[j - 1]];
      assert piece + [] == piece;
      i := LeafReachesBack(s[..j - 1], piece);
      assert s[..j - 1][i..] + piece == s[i..j];
    }
  }

  /** Filtering drops exactly the control characters and quotes, in place. */
  lemma {:induction false} FilterConcat(control: char -> bool, s: string, t: string)
    ensures Filtered(control, s + t) == Filtered(control, s) + Filtered(control, t)
  {
    if s == [] {
      assert s + t == t;
    } else {
      assert (s + t)[1..] == s[1..] + t;
      FilterConcat(control, s[1..], t);
    }
  }

  lemma {:induction false} FilterMeaning(control: char -> bool, s: string, p: char -> bool)
    ensures Every(c => !control(c) && c != '"', Filtered(control, s))
    ensures Every(p, s) ==> Every(p, Filtered(control, s))
    ensures Every(c => !control(c) && c != '"', s) ==> Filtered(control, s) == s
  {
    if s != [] {
      FilterMeaning(control, s[1..], p);
      assert s == [s[0]] + s[1..];
    }
  }

  lemma {:induction false} TrimStartMeaning(drop: char -> bool, s: string, p: char -> bool)
    ensures var r := TrimStart(drop, s);
      && (r != [] ==> !drop(r[0]))
      && (Every(p, s) ==> Every(p, r))
      && (r != [] && s != [] ==> r[|r| - 1] == s[|s| - 1])
      && (s != [] && !drop(s[0]) ==> r == s)
  {
    if s != [] && drop(s[0]) {
      TrimStartMeaning(drop, s[1..], p);
    }
  }

  lemma {:induction false} TrimEndMeaning(drop: char -> bool, s: string, p: char -> bool)
    ensures var r := TrimEnd(drop, s);
      && (r != [] ==> !drop(r[|r| - 1]) && r[0] == s[0])
      && (Every(p, s) ==> Every(p, r))
      && (s != [] && !drop(s[|s| - 1]) ==> r == s)
      && |r| <= |s|
  {
    if s != [] && drop(s[|s| - 1]) {
      TrimEndMeaning(drop, s[..|s| - 1], p);
    }
  }

  lemma TrimMeaning(whitespace: char -> bool, s: string, p: char -> bool)
    ensures var r := Trim(whitespace, s);
      && (r != [] ==> !whitespace(r[0]) && !whitespace(r[|r| - 1]))
      && (Every(p, s) ==> Every(p, r))
      && (s != [] && !whitespace(s[0]) && !whitespace(s[|s| - 1]) ==> r == s)
  {
    TrimStartMeaning(whitespace, s, p);
    TrimEndMeaning(whitespace, TrimStart(whitespace, s), p);
  }

  predicate SafeChar(u: Unicode, c: char) {
    !Separator(c) && !u.control(c) && c != '"'
  }

  /** A name is safe: no separator, control or quote, and no blank at either end. */
  ghost predicate Safe(u: Unicode, r: string) {
    && r != [] && Every(c => SafeChar(u, c), r)
    && !u.whitespace(r[0]) && !u.whitespace(r[|r| - 1])
  }

  lemma SanitizedIsSafe(u: Unicode, name: string)
    ensures Sanitized(u, name).Some? ==> Safe(u, Sanitized(u, name).value)
  {
    var noSeparator := (c: char) => !Separator(c);
    var safe := (c: char) => SafeChar(u, c);
    LeafMeaning(name, []);
    var a := Filtered(u.control, Leaf(name));
    FilterMeaning(u.control, Leaf(name), noSeparator);
    assert Every(safe, a);
    var b := Trim(u.whitespace, a);
    TrimMeaning(u.whitespace, a, safe);
    TrimStartMeaning(Dot, b, safe);
    TrimMeaning(u.whitespace, TrimStart(Dot, b), safe);
  }

  /** A safe name is kept as it is exactly when it does not begin with a dot. */
  /** Characters `i` to `j` of `f` all have the property, and the next one before `end` does not. */
  ghost predicate RunOf(p: char -> bool, f: string, i: nat, j: nat, end: nat) {
    i <= j <= end <= |f| && (forall k :: i <= k < j ==> p(f[k])) && (j < end ==> !p(f[j]))
  }

  lemma DroppedFirst(whitespace: char -> bool, f: string) returns (a: nat, e: nat)
    ensures RunOf(whitespace, f, 0, a, e) && (forall k :: e <= k < |f| ==> whitespace(f[k]))
    ensures Trim(whitespace, f) == f[a..e]
  {
    a, e := TermList.TrimFindsCore(whitespace, f);
    assert a < e ==> f[a..e][0] == f[a];
  }

  lemma DroppedDots(f: string, a: nat, e: nat) returns (b: nat)
    requires a <= e <= |f|
    ensures RunOf(Dot, f, a, b, e) && TrimStart(Dot, f[a..e]) == f[b..e]
  {
    var k := TermList.TrimStartSplits(Dot, f[a..e]);
    b := a + k;
    assert forall n :: 0 <= n < e - a ==> f[a..e][n] == f[a + n];
    forall n | a <= n < b ensures Dot(f[n]) {
      assert f[n] == f[a..e][n - a];
    }
    assert b < e ==> f[b] == f[a..e][k];
    SliceOfSlice(f, a, e, k, e - a);
  }

  lemma DroppedEnds(whitespace: char -> bool, f: string) returns (a: nat, b: nat, c: nat, d: nat, e: nat)
    ensures RunOf(whitespace, f, 0, a, e) && RunOf(Dot, f, a, b, e) && RunOf(whitespace, f, b, c, d)
    ensures d <= e <= |f| && (forall k :: d <= k < |f| ==> whitespace(f[k])) && (c < d ==> !whitespace(f[d - 1]))
    ensures Trim(whitespace, TrimStart(Dot, Trim(whitespace, f))) == f[c..d]
  {
    a, e := DroppedFirst(whitespace, f);
    b := DroppedDots(f, a, e);
    c, d := DroppedBlanks(whitespace, f, b, e);
  }

  lemma SliceOfSlice(f: string, b: nat, e: nat, x: nat, y: nat)
    requires b <= e <= |f| && x <= y <= e - b
    ensures f[b..e][x..y] == f[b + x..b + y]
  {
    forall n | 0 <= n < y - x ensures f[b..e][x..y][n] == f[b + x..b + y][n] {
      assert f[b..e][x..y][n] == f[b..e][x + n] == f[b + x + n];
    }
  }

  lemma DroppedBlanks(whitespace: char -> bool, f: string, b: nat, e: nat) returns (c: nat, d: nat)
    requires b <= e <= |f| && forall k :: e <= k < |f| ==> whitespace(f[k])
    ensures RunOf(whitespace, f, b, c, d) && d <= e && (forall k :: d <= k < |f| ==> whitespace(f[k]))
    ensures (c < d ==> !whitespace(f[d - 1])) && Trim(whitespace, f[b..e]) == f[c..d]
  {
    var x, y := TermList.TrimFindsCore(whitespace, f[b..e]);
    c, d := b + x, b + y;
    SliceOfSlice(f, b, e, x, y);
    assert forall n :: 0 <= n < e - b ==> f[b..e][n] == f[b + n];
    forall k | d <= k < e ensures whitespace(f[k]) {
      assert f[k] == f[b..e][k - b];
    }
  }

  /**
   What sanitising drops from the filtered leaf: blanks, dots and blanks again in front, blanks behind, each
   as many as there are; nothing is left exactly when there is no name.
   */
  lemma SanitisingDropsEnds(u: Unicode, name: string) returns (a: nat, b: nat, c: nat, d: nat, e: nat)
    ensures var f := Filtered(u.control, Leaf(name));
      && RunOf(u.whitespace, f, 0, a, e) && RunOf(Dot, f, a, b, e) && RunOf(u.whitespace, f, b, c, d)
      && d <= e <= |f| && (forall k :: d <= k < |f| ==> u.whitespace(f[k])) && (c < d ==> !u.whitespace(f[d - 1]))
      && Sanitized(u, name) == if c == d then None else Some(f[c..d])
  {
    a, b, c, d, e := DroppedEnds(u.whitespace, Filtered(u.control, Leaf(name)));
  }

  lemma SafeNameIsKept(u: Unicode, r: string)
    requires Safe(u, r)
    ensures Sanitized(u, r) == Some(r) <==> r[0] != '.'
  {
    var any := (c: char) => true;
    LeafMeaning(r, []);
    assert Leaf(r) == r + [] == r;
    FilterMeaning(u.control, r, any);
    assert Every(c => !u.control(c) && c != '"', r);
    TrimMeaning(u.whitespace, r, any);
    TrimStartMeaning(Dot, r, any);
    if r[0] == '.' {
      TrimStartShortens(r);
      TrimShortens(u.whitespace, TrimStart(Dot, r));
    }
  }

  lemma {:induction false} TrimStartShortens(s: string)
    ensures |TrimStart(Dot, s)| <= |s| && (s != [] && s[0] == '.' ==> |TrimStart(Dot, s)| < |s|)
  {
    if s != [] && s[0] == '.' {
      TrimStartShortens(s[1..]);
    }
  }

  lemma TrimShortens(whitespace: char -> bool, s: string)
    ensures |Trim(whitespace, s)| <= |s|
  {
    TrimStartLength(whitespace, s);
    TrimEndMeaning(whitespace, TrimStart(whitespace, s), whitespace);
  }

  lemma {:induction false} TrimStartLength(drop: char -> bool, s: string)
    ensures |TrimStart(drop, s)| <= |s|
  {
    if s != [] && drop(s[0]) {
      TrimStartLength(drop, s[1..]);
    }
  }

  /** The cleaned leaf reads: dots, then blanks, then a dot. */
  predicate DotsBlanksDot(u: Unicode, name: string) {
    var undotted := TrimStart(Dot, Trim(u.whitespace, Filtered(u.control, Leaf(name))));
    var rest := TrimStart(u.whitespace, undotted);
    undotted != [] && u.whitespace(undotted[0]) && rest != [] && rest[0] == '.'
  }

  /**
   Sanitising twice is sanitising once if and only if the cleaned name is not dots, then blanks, then
   another dot.
   */
  lemma SanitisingTwiceExactly(u: Unicode, name: string)
    requires !u.whitespace('.') && Sanitized(u, name).Some?
    ensures Sanitized(u, Sanitized(u, name).value) == Sanitized(u, name) <==> !DotsBlanksDot(u, name)
  {
    var r := Sanitized(u, name).value;
    SanitizedIsSafe(u, name);
    SafeNameIsKept(u, r);
    var undotted := TrimStart(Dot, Trim(u.whitespace, Filtered(u.control, Leaf(name))));
    var rest := TrimStart(u.whitespace, undotted);
    var any := (c: char) => true;
    TrimStartMeaning(Dot, Trim(u.whitespace, Filtered(u.control, Leaf(name))), any);
    TrimStartMeaning(u.whitespace, undotted, any);
    TrimEndMeaning(u.whitespace, rest, any);
  }

  const PLAIN: Unicode := Unicode((c: char) => c < ' ' || c as int == 127, (c: char) => c == ' ')

  /** `. .foo` becomes `.foo`, which would become `foo`. */
  lemma SanitisingIsNotIdempotent()
    ensures DotsBlanksDot(PLAIN, ". .foo") && Sanitized(PLAIN, ". .foo") == Some(".foo")
    ensures Sanitized(PLAIN, ".foo") != Some(".foo")
  {
    ExampleIsClean();
    TrimMeaning(PLAIN.whitespace, ". .foo", c => true);
    assert ". .foo"[1..] == " .foo" && " .foo"[1..] == ".foo";
    assert TrimStart(Dot, ". .foo") == TrimStart(Dot, " .foo") == " .foo";
    assert TrimStart(PLAIN.whitespace, " .foo") == TrimStart(PLAIN.whitespace, ".foo") == ".foo";
    assert TrimEnd(PLAIN.whitespace, ".foo") == ".foo";
    SanitisingTwiceExactly(PLAIN, ". .foo");
  }

  lemma {:induction false} ExampleIsClean()
    ensures Filtered(PLAIN.control, Leaf(". .foo")) == ". .foo"
  {
    var name := ". .foo";
    assert forall i :: 0 <= i < |name| ==> !Separator(name[i]) && !PLAIN.control(name[i]) && name[i] != '"';
    LeafMeaning(name, []);
    assert name + [] == name;
    FilterMeaning(PLAIN.control, name, PLAIN.control);
  }

  // ---------------------------------------------------------------------------------------
  // The header
  // ---------------------------------------------------------------------------------------

  predicate PlainChar(c: char) {
    AlphaNumeric(c as int) || c in " .-_()"
  }

  function FallbackChar(c: char): char {
    if PlainChar(c) then c else '_'
  }

  function Fallback(s: string): (r: string)
    ensures |r| == |s|
    ensures forall i :: 0 <= i < |s| ==> r[i] == FallbackChar(s[i])
  {
    if s == [] then [] else [FallbackChar(s[0])] + Fallback(s[1..])
  }

  predicate IsAscii(s: string) {
    forall i :: 0 <= i < |s| ==> s[i] as int < 128
  }

  function Extension(contentType: string): string {
    if contentType == "image/jpeg" then "jpg"
    else if contentType == "image/png" then "png"
    else if contentType == "image/webp" then "webp"
    else if contentType == "image/gif" then "gif"
    else if contentType == "video/mp4" then "mp4"
    else if contentType == "audio/webm" then "webm"
    else if contentType == "audio/mp4" then "m4a"
    else if contentType == "audio/ogg" then "ogg"
    else "bin"
  }

  /** The media type that a file with this extension has. */
  function MediaType(extension: string): Option<string> {
    match extension
    case "jpg" => Some("image/jpeg")
    case "png" => Some("image/png")
    case "webp" => Some("image/webp")
    case "gif" => Some("image/gif")
    case "mp4" => Some("video/mp4")
    case "webm" => Some("audio/webm")
    case "m4a" => Some("audio/mp4")
    case "ogg" => Some("audio/ogg")
    case _ => None
  }

  /** A generated name tells its media type, or there is no extension for the type. */
  lemma ExtensionTellsType(contentType: string)
    ensures Extension(contentType) == "bin" || MediaType(Extension(contentType)) == Some(contentType)
    ensures Extension(contentType) == "bin" <==> forall e :: MediaType(e) != Some(contentType)
  {
    if Extension(contentType) == "bin" {
      forall e ensures MediaType(e) != Some(contentType) { }
    }
  }

  function Generated(id: string, contentType: string): string {
    "jamye-" + id + "." + Extension(contentType)
  }

  /** The name offered to the user. */
  function FilenameOf(u: Unicode, id: string, contentType: string, stored: Option<string>): string {
    if stored.Some? && Sanitized(u, stored.value).Some? then Sanitized(u, stored.value).value
    else Generated(id, contentType)
  }

  /** The name offered to readers of the plain form only. */
  function FallbackOf(u: Unicode, id: string, contentType: string, stored: Option<string>): string {
    var filename := FilenameOf(u, id, contentType, stored);
    if IsAscii(filename) then Fallback(filename) else Generated(id, contentType)
  }

  const START := "attachment; filename=\""
  const MIDDLE := "\"; filename*=UTF-8''"

  method ContentDisposition(u: Unicode, id: string, contentType: string, stored: Option<string>) returns (r: string)
    ensures r == START + FallbackOf(u, id, contentType, stored) + MIDDLE
                 + Encode(Utf8All(FilenameOf(u, id, contentType, stored)))
  {
    var filename := FilenameOf(u, id, contentType, stored);
    var fallback := if IsAscii(filename) then Fallback(filename) else Generated(id, contentType);
    var encoded := EncodeRfc5987(filename);
    r := START + fallback + MIDDLE + encoded;
  }

  /** Everything before the first quote. */
  function UpToQuote(s: string): (r: string)
    ensures |r| <= |s|
  {
    if s == [] || s[0] == '"' then [] else [s[0]] + UpToQuote(s[1..])
  }

  /** The quoted name and the decoded extended name of a header of this form. */
  function Read(header: string): Option<(string, string)> {
    if !(START <= header) then None
    else
      var rest := header[|START|..];
      var quoted := UpToQuote(rest);
      var after := rest[|quoted|..];
      if !(MIDDLE <= after) then None
      else
        var bytes := Decode(after[|MIDDLE|..]);
        if bytes.None? || DecodeUtf8(bytes.value).None? then None
        else Some((quoted, DecodeUtf8(bytes.value).value))
  }

  lemma {:induction false} QuoteEndsName(name: string, x: string)
    requires Every(c => c != '"', name) && x != [] && x[0] == '"'
    ensures UpToQuote(name + x) == name
  {
    if name == [] {
      assert name + x == x;
    } else {
      assert (name + x)[1..] == name[1..] + x;
      QuoteEndsName(name[1..], x);
    }
  }

  lemma Pieces(a: string, b: string, c: string, d: string)
    ensures var all := a + b + c + d;
      a <= all && all[|a|..] == b + (c + d) && (b + (c + d))[|b|..] == c + d && c <= c + d && (c + d)[|c|..] == d
  {
  }

  lemma {:induction false} ReadBack(name: string, filename: string)
    requires Every(c => c != '"', name)
    ensures Read(START + name + MIDDLE + Encode(Utf8All(filename))) == Some((name, filename))
  {
    var encoded := Encode(Utf8All(filename));
    Pieces(START, name, MIDDLE, encoded);
    QuoteEndsName(name, MIDDLE + encoded);
    EncodingRoundTrip(Utf8All(filename));
    Utf8RoundTrip(filename);
  }

  lemma PrintableConcat(a: string, b: string)
    requires Printable(a) && Printable(b)
    ensures Printable(a + b)
  {
  }

  /** The text of an identifier: hexadecimal digits and hyphens. */
  ghost predicate IdText(id: string) {
    Every(c => AlphaNumeric(c as int) || c == '-', id)
  }

  lemma FallbackIsPlain(u: Unicode, id: string, contentType: string, stored: Option<string>)
    requires IdText(id)
    ensures Every(PlainChar, FallbackOf(u, id, contentType, stored))
  {
    GeneratedIsPlain(id, contentType);
  }

  lemma GeneratedIsPlain(id: string, contentType: string)
    requires IdText(id)
    ensures Every(PlainChar, Generated(id, contentType))
  {
    assert Every(PlainChar, "jamye-") && Every(PlainChar, ".");
    ExtensionIsPlain(contentType);
  }

  lemma ExtensionIsPlain(contentType: string)
    ensures Every(PlainChar, Extension(contentType))
  {
  }

  /** What the two names of the header are. */
  ghost predicate Names(u: Unicode, id: string, contentType: string, stored: Option<string>, plain: string, filename: string) {
    && (stored.Some? && Sanitized(u, stored.value).Some? ==> Some(filename) == Sanitized(u, stored.value))
    && (stored.None? || Sanitized(u, stored.value).None? ==> filename == "jamye-" + id + "." + Extension(contentType))
    && (IsAscii(filename) ==> |plain| == |filename| && forall i :: 0 <= i < |plain| ==>
          plain[i] == if PlainChar(filename[i]) then filename[i] else '_')
    && (!IsAscii(filename) ==> plain == "jamye-" + id + "." + Extension(contentType))
  }

  /**
   For every stored name a reader of the header gets back the fallback and the exact file name, and the
   header is one line of printable ASCII.
   */
  lemma {:induction false} HeaderRoundTrip(u: Unicode, id: string, contentType: string, stored: Option<string>)
    requires IdText(id)
    ensures var name, filename := FallbackOf(u, id, contentType, stored), FilenameOf(u, id, contentType, stored);
      var header := START + name + MIDDLE + Encode(Utf8All(filename));
      Read(header) == Some((name, filename)) && Printable(header) && Names(u, id, contentType, stored, name, filename)
  {
    var name, filename := FallbackOf(u, id, contentType, stored), FilenameOf(u, id, contentType, stored);
    FallbackIsPlain(u, id, contentType, stored);
    PlainIsQuotable(name);
    ReadBack(name, filename);
    EncodingIsPrintable(Utf8All(filename));
    HeaderIsPrintable(name, Encode(Utf8All(filename)));
  }

  lemma PlainIsQuotable(name: string)
    requires Every(PlainChar, name)
    ensures Every(c => c != '"', name) && Printable(name)
  {
  }

  lemma HeaderIsPrintable(name: string, encoded: string)
    requires Printable(name) && Printable(encoded)
    ensures Printable(START + name + MIDDLE + encoded)
  {
    PrintableConcat(START, name);
    PrintableConcat(START + name, MIDDLE);
    PrintableConcat(START + name + MIDDLE, encoded);
  }
}
