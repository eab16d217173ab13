/**
 The greedy left-to-right masking loop of the chat-message content filter (`mask`).

 The only fact assumed about the character fold, and only where stated, is that it leaves
 `*` alone.
 */
module ContentFilter {
  import opened TermList

  const MASK := "***"

  /** A stored vector: terms of at least two characters, longest first. */
  ghost predicate ValidTerms(terms: seq<string>) {
    && (forall i :: 0 <= i < |terms| ==> |terms[i]| >= MIN_FILTER_TERM_CHARS)
    && (forall i, j :: 0 <= i < j < |terms| ==> |terms[i]| >= |terms[j]|)
  }

  lemma BuiltTermsAreValid(u: Unicode, terms: seq<string>)
    requires Build(Judging(u), terms).Ok?
    ensures ValidTerms(Build(Judging(u), terms).value)
  {
    BuildMeaning(Judging(u), terms);
    var v := Build(Judging(u), terms).value;
    forall i | 0 <= i < |v| ensures |v[i]| >= MIN_FILTER_TERM_CHARS {
      assert v[i] in Members(v);
    }
  }

  ghost predicate Listable(terms: set<string>) {
    forall t :: t in terms ==> |t| >= MIN_FILTER_TERM_CHARS
  }

  /** The length of the longest listed prefix of `s` of length at most `n`; 0 if there is none. */
  function LongestUpTo(terms: set<string>, s: string, n: nat): (r: nat)
    requires n <= |s|
    ensures r <= n
  {
    if n == 0 || s[..n] in terms then n else LongestUpTo(terms, s, n - 1)
  }

  function LongestMatch(terms: set<string>, s: string): (r: nat)
    ensures r <= |s|
  {
    LongestUpTo(terms, s, |s|)
  }

  lemma {:induction false} LongestUpToMeaning(terms: set<string>, s: string, n: nat)
    requires n <= |s|
    ensures var k := LongestUpTo(terms, s, n);
            && (k > 0 ==> s[..k] in terms)
            && (forall t :: t in terms && t <= s && |t| <= n ==> |t| <= k)
  {
    if n > 0 && s[..n] !in terms {
      LongestUpToMeaning(terms, s, n - 1);
      assert forall t: string :: t <= s && |t| == n ==> t == s[..n];
    }
  }

  lemma LongestMatchMeaning(terms: set<string>, s: string)
    ensures var k := LongestMatch(terms, s);
            && (k > 0 ==> s[..k] in terms)
            && (forall t :: t in terms && t <= s ==> |t| <= k)
  {
    LongestUpToMeaning(terms, s, |s|);
  }

  /** Leftmost-longest replacement, a function of the SET of folded terms only. */
  function Masked(fold: char -> char, terms: set<string>, text: string): string
    decreases |text|
  {
    if text == [] then []
    else
      var n := LongestMatch(terms, FoldAll(fold, text));
      if n == 0 then [text[0]] + Masked(fold, terms, text[1..])
      else MASK + Masked(fold, terms, text[n..])
  }

  lemma FoldSuffix(fold: char -> char, text: string, i: nat)
    requires i <= |text|
    ensures FoldAll(fold, text)[i..] == FoldAll(fold, text[i..])
  {
  }

  /** In a stored vector the first matching term is the longest one. */
  lemma FirstMatchIsLongest(terms: seq<string>, s: string, k: nat)
    requires ValidTerms(terms) && k <= |terms|
    requires forall j :: 0 <= j < k ==> !(terms[j] <= s)
    requires k < |terms| ==> terms[k] <= s
    ensures LongestMatch(Members(terms), s) == if k < |terms| then |terms[k]| else 0
  {
    var n := LongestMatch(Members(terms), s);
    LongestMatchMeaning(Members(terms), s);
    if k < |terms| {
      assert terms[k] in Members(terms);
      var j :| 0 <= j < |terms| && terms[j] == s[..n];
    } else {
      assert forall t :: t in Members(terms) ==> !(t <= s);
      assert s[..n] <= s;
    }
  }

  /** The length of the first term that matches at the front of `s`; 0 if none does. */
  method MatchLength(terms: seq<string>, s: string) returns (n: nat)
    requires ValidTerms(terms)
    ensures n == LongestMatch(Members(terms), s)
  {
    var k := 0;
    while k < |terms| && !(terms[k] <= s)
      invariant 0 <= k <= |terms|
      invariant forall j :: 0 <= j < k ==> !(terms[j] <= s)
    {
      k := k + 1;
    }
    FirstMatchIsLongest(terms, s, k);
    n := if k < |terms| then |terms[k]| else 0;
  }

  lemma MaskStep(fold: char -> char, terms: set<string>, text: string, i: nat, n: nat, output: string)
    requires i < |text| && n == LongestMatch(terms, FoldAll(fold, text)[i..])
    ensures i + n <= |text|
    ensures output + Masked(fold, terms, text[i..]) ==
      if n == 0 then output + [text[i]] + Masked(fold, terms, text[i + 1..])
      else output + MASK + Masked(fold, terms, text[i + n..])
  {
    FoldSuffix(fold, text, i);
    assert text[i..][1..] == text[i + 1..];
    assert text[i..][n..] == text[i + n..];
  }

  /** One turn of the masking loop: a whole term is replaced, or one character is copied. */
  method MaskOnce(fold: char -> char, terms: seq<string>, text: string, folded: string, index: nat, output: string)
    returns (next: nat, extended: string, masked: bool)
    requires ValidTerms(terms) && index < |text| && folded == FoldAll(fold, text)
    ensures index < next <= |text|
    ensures extended + Masked(fold, Members(terms), text[next..]) == output + Masked(fold, Members(terms), text[index..])
    ensures !masked ==> next == index + 1 && extended == output + [text[index]]
  {
    var n := MatchLength(terms, folded[index..]);
    MaskStep(fold, Members(terms), text, index, n, output);
    masked := n > 0;
    if masked {
      extended := output + MASK;
      next := index + n;
    } else {
      extended := output + [text[index]];
      next := index + 1;
    }
  }

  /** `ContentFilter::mask`. */
  method Mask(u: Unicode, terms: seq<string>, text: string) returns (r: string)
    requires ValidTerms(terms)
    ensures r == Masked(u.fold, Members(terms), text)
  {
    if terms == [] || text == [] {
      assert terms == [] ==> Members(terms) == {};
      NoTermsNoChange(u.fold, text);
      return text;
    }
    var folded := FoldAll(u.fold, text);
    var output := "";
    var maskedAny := false;
    var index := 0;
    assert text[0..] == text;
    while index < |text|
      invariant 0 <= index <= |text|
      invariant output + Masked(u.fold, Members(terms), text[index..]) == Masked(u.fold, Members(terms), text)
      invariant !maskedAny ==> output == text[..index]
    {
      var next, extended, masked := MaskOnce(u.fold, terms, text, folded, index, output);
      assert text[..index + 1] == text[..index] + [text[index]];
      index, output, maskedAny := next, extended, maskedAny || masked;
    }
    assert text[index..] == [];
    assert text[..|text|] == text;
    r := if maskedAny then output else text;
  }

  lemma {:induction false} NoTermsNoChange(fold: char -> char, text: string)
    ensures Masked(fold, {}, text) == text
    decreases |text|
  {
    if text != [] {
      LongestMatchMeaning({}, FoldAll(fold, text));
      NoTermsNoChange(fold, text[1..]);
    }
  }

  ghost predicate OccursAt(t: string, s: string, i: int) {
    0 <= i <= |s| && t <= s[i..]
  }

  ghost predicate Occurs(t: string, s: string) {
    exists i :: OccursAt(t, s, i)
  }

  lemma OccursTail(t: string, s: string)
    requires s != []
    ensures Occurs(t, s) <==> t <= s || Occurs(t, s[1..])
  {
    if i :| OccursAt(t, s, i) {
      if i == 0 {
        assert s[0..] == s;
      } else {
        assert s[1..][i - 1..] == s[i..];
        assert OccursAt(t, s[1..], i - 1);
      }
    }
    if t <= s {
      assert s[0..] == s;
      assert OccursAt(t, s, 0);
    }
    if i :| OccursAt(t, s[1..], i) {
      assert s[1..][i..] == s[i + 1..];
      assert OccursAt(t, s, i + 1);
    }
  }

  ghost predicate Clean(fold: char -> char, terms: set<string>, text: string) {
    forall t :: t in terms ==> !Occurs(t, FoldAll(fold, text))
  }

  lemma CleanTail(fold: char -> char, terms: set<string>, text: string)
    requires text != [] && Listable(terms)
    ensures Clean(fold, terms, text)
       <==> LongestMatch(terms, FoldAll(fold, text)) == 0 && Clean(fold, terms, text[1..])
  {
    var folded := FoldAll(fold, text);
    FoldSuffix(fold, text, 1);
    LongestMatchMeaning(terms, folded);
    forall t | t in terms
      ensures Occurs(t, folded) <==> t <= folded || Occurs(t, FoldAll(fold, text[1..]))
    {
      OccursTail(t, folded);
    }
  }

  /** A text without a listed term is returned unchanged. */
  lemma {:induction false} CleanTextIsKept(fold: char -> char, terms: set<string>, text: string)
    requires Listable(terms) && Clean(fold, terms, text)
    ensures Masked(fold, terms, text) == text
    decreases |text|
  {
    if text != [] {
      CleanTail(fold, terms, text);
      CleanTextIsKept(fold, terms, text[1..]);
    }
  }

  predicate StarsAt(t: string, i: int) {
    0 <= i && i + 3 <= |t| && t[i] == '*' && t[i + 1] == '*' && t[i + 2] == '*'
  }

  /** The stars of a mask cannot take part in an occurrence of such a term. */
  ghost predicate Resistant(t: string) {
    && t != [] && t[0] != '*' && t[|t| - 1] != '*'
    && (forall i :: !StarsAt(t, i))
  }

  /** `p` folds onto the front of `s`. */
  predicate FoldedPrefix(fold: char -> char, p: string, s: string) {
    |p| <= |s| && forall i :: 0 <= i < |p| ==> p[i] == fold(s[i])
  }

  lemma FoldedPrefixMeaning(fold: char -> char, p: string, s: string)
    ensures FoldedPrefix(fold, p, s) <==> p <= FoldAll(fold, s)
  {
  }

  lemma FoldedPrefixTail(fold: char -> char, p: string, c: char, s: string)
    requires p != []
    ensures FoldedPrefix(fold, p, [c] + s) <==> p[0] == fold(c) && FoldedPrefix(fold, p[1..], s)
  {
    if p[0] == fold(c) && FoldedPrefix(fold, p[1..], s) {
      forall i | 0 <= i < |p| ensures p[i] == fold(([c] + s)[i]) {
        assert i > 0 ==> p[i] == p[1..][i - 1];
      }
    }
    if FoldedPrefix(fold, p, [c] + s) {
      forall i | 0 <= i < |p[1..]| ensures p[1..][i] == fold(s[i]) {
        assert p[1..][i] == p[i + 1] == fold(([c] + s)[i + 1]);
      }
    }
  }

  /** A prefix of a mask that is free of `***` and does not end in a star is empty. */
  lemma NoPrefixOfMask(fold: char -> char, p: string, s: string)
    requires fold('*') == '*' && p != [] && p[|p| - 1] != '*' && !StarsAt(p, 0)
    ensures !FoldedPrefix(fold, p, MASK + s)
  {
    var q := MASK + s;
    assert q[0] == q[1] == q[2] == '*';
    if |p| >= 3 {
      assert p[0] != '*' || p[1] != '*' || p[2] != '*';
    }
  }

  /** A piece of a resistant term at the front of the output was at the front of the input. */
  lemma {:induction false} PrefixSurvives(fold: char -> char, terms: set<string>, text: string, p: string)
    requires fold('*') == '*'
    requires p != [] ==> p[|p| - 1] != '*'
    requires forall i :: !StarsAt(p, i)
    ensures FoldedPrefix(fold, p, Masked(fold, terms, text)) ==> FoldedPrefix(fold, p, text)
    decreases |text|
  {
    if p != [] && text != [] {
      var n := LongestMatch(terms, FoldAll(fold, text));
      if n == 0 || n > |text| {
        forall i: int ensures !StarsAt(p[1..], i) {
          assert !StarsAt(p, i + 1);
        }
        PrefixSurvives(fold, terms, text[1..], p[1..]);
        FoldedPrefixTail(fold, p, text[0], Masked(fold, terms, text[1..]));
        FoldedPrefixTail(fold, p, text[0], text[1..]);
        assert text == [text[0]] + text[1..];
      } else {
        NoPrefixOfMask(fold, p, Masked(fold, terms, text[n..]));
      }
    }
  }

  lemma OccursAtCut(fold: char -> char, t: string, head: string, tail: string, k: nat)
    ensures k >= |head| ==>
      (OccursAt(t, FoldAll(fold, head + tail), k) <==> OccursAt(t, FoldAll(fold, tail), k - |head|))
    ensures 0 < |t| && k < |head| && OccursAt(t, FoldAll(fold, head + tail), k)
      ==> t[0] == fold(head[k])
  {
    var whole := FoldAll(fold, head + tail);
    if k >= |head| && k <= |whole| {
      assert whole[k..] == FoldAll(fold, tail)[k - |head|..];
    } else if k < |head| && 0 < |t| && t <= whole[k..] {
      assert t[0] == whole[k..][0] == whole[k];
    }
  }

  /** No resistant listed term occurs anywhere in the masked output. */
  lemma {:induction false} ResistantTermNeverRemains(
      fold: char -> char, terms: set<string>, text: string, t: string, k: nat)
    requires fold('*') == '*' && Listable(terms) && t in terms && Resistant(t)
    ensures !OccursAt(t, FoldAll(fold, Masked(fold, terms, text)), k)
    decreases |text|
  {
    if text != [] {
      var folded := FoldAll(fold, text);
      LongestMatchMeaning(terms, folded);
      var n := LongestMatch(terms, folded);
      if n == 0 {
        var rest := Masked(fold, terms, text[1..]);
        OccursAtCut(fold, t, [text[0]], rest, k);
        if k == 0 {
          PrefixSurvives(fold, terms, text, t);
          FoldedPrefixMeaning(fold, t, text);
          FoldedPrefixMeaning(fold, t, [text[0]] + rest);
          assert FoldAll(fold, [text[0]] + rest)[0..] == FoldAll(fold, [text[0]] + rest);
        } else {
          ResistantTermNeverRemains(fold, terms, text[1..], t, k - 1);
        }
      } else {
        OccursAtCut(fold, t, MASK, Masked(fold, terms, text[n..]), k);
        if k >= 3 {
          ResistantTermNeverRemains(fold, terms, text[n..], t, k - 3);
        }
      }
    }
  }

  /**
   Masking leaves no residue and is idempotent for every list of resistant terms, in
   particular for every list of terms without `*`.
   */
  lemma MaskingLeavesNoResidue(fold: char -> char, terms: set<string>, text: string)
    requires fold('*') == '*' && Listable(terms)
    requires forall t :: t in terms ==> Resistant(t)
    ensures Clean(fold, terms, Masked(fold, terms, text))
    ensures Masked(fold, terms, Masked(fold, terms, text)) == Masked(fold, terms, text)
  {
    forall t, k: nat | t in terms
      ensures !OccursAt(t, FoldAll(fold, Masked(fold, terms, text)), k)
    {
      ResistantTermNeverRemains(fold, terms, text, t, k);
    }
    CleanTextIsKept(fold, terms, Masked(fold, terms, text));
  }

  lemma StarFreeTermsResist(t: string)
    requires |t| >= MIN_FILTER_TERM_CHARS && '*' !in t
    ensures Resistant(t)
  {
  }

  /** `t` never occurs in what any filter listing it outputs. */
  ghost predicate NeverResidue(fold: char -> char, t: string) {
    forall terms, text :: t in terms && Listable(terms)
      ==> !Occurs(t, FoldAll(fold, Masked(fold, terms, text)))
  }

  lemma HelperMatches(t: string, z: char, p: string, s: string)
    requires |t| >= 2 && z !in t && |p| < |t| && |s| < |t| && z !in p && z !in s
    ensures LongestMatch({t, [z, z]}, p + [z, z] + s) == if p == [] then 2 else 0
    ensures !Occurs(t, s) && !Occurs([z, z], s)
  {
    var text := p + [z, z] + s;
    LongestMatchMeaning({t, [z, z]}, text);
    assert text[|p|] == z && t[|p|] != z;
    assert !(t <= text);
    if p == [] {
      assert [z, z] <= text;
    } else {
      assert text[0] == p[0] != z;
    }
    forall i ensures !OccursAt([z, z], s, i) {
      if 0 <= i < |s| {
        assert s[i..][0] == s[i] != z;
      }
    }
  }

  /** A text that reads `p`, then the helper term, then `s`, is masked to `p`, the mask, `s`. */
  lemma {:induction false} MaskAroundHelper(
      fold: char -> char, t: string, z: char, p: string, s: string)
    requires |t| >= 2 && z !in t && fold(z) == z
    requires |p| < |t| && |s| < |t| && z !in p && z !in s
    requires FoldAll(fold, p) == p && FoldAll(fold, s) == s
    ensures Masked(fold, {t, [z, z]}, p + [z, z] + s) == p + MASK + s
    decreases |p|
  {
    var terms, text := {t, [z, z]}, p + [z, z] + s;
    HelperMatches(t, z, p, s);
    assert FoldAll(fold, text) == text;
    if p == [] {
      assert text[2..] == s;
      assert Clean(fold, terms, s);
      CleanTextIsKept(fold, terms, s);
    } else {
      assert text[1..] == p[1..] + [z, z] + s;
      FoldSuffix(fold, p, 1);
      MaskAroundHelper(fold, t, z, p[1..], s);
      assert p + MASK + s == [p[0]] + (p[1..] + MASK + s);
    }
  }

  /** A term that is not resistant is left behind by some filter listing it. */
  lemma VulnerableTermRemains(fold: char -> char, t: string, z: char, p: string, s: string, at: nat)
    requires fold('*') == '*' && |t| >= 2 && FoldAll(fold, t) == t
    requires z !in t && fold(z) == z
    requires |p| < |t| && |s| < |t| && p == t[..|p|] && s == t[|t| - |s|..]
    requires OccursAt(t, p + MASK + s, at)
    ensures !NeverResidue(fold, t)
  {
    FoldOfPart(fold, t, p, s);
    MaskAroundHelper(fold, t, z, p, s);
    assert FoldAll(fold, p + MASK + s) == p + MASK + s;
    var terms := {t, [z, z]};
    assert Listable(terms) && t in terms;
    assert Occurs(t, FoldAll(fold, Masked(fold, terms, p + [z, z] + s)));
  }

  /**
   Exactly which terms can never be left behind: those that neither begin nor end with `*`
   and do not contain `***`. (`z` is any character outside the term that folds to itself.)
   */
  lemma ResistanceIsExact(fold: char -> char, t: string, z: char)
    requires fold('*') == '*' && |t| >= MIN_FILTER_TERM_CHARS && FoldAll(fold, t) == t
    requires z !in t && fold(z) == z
    ensures Resistant(t) <==> NeverResidue(fold, t)
  {
    if Resistant(t) {
      forall terms, text, k: nat | t in terms && Listable(terms)
        ensures !OccursAt(t, FoldAll(fold, Masked(fold, terms, text)), k)
      {
        ResistantTermNeverRemains(fold, terms, text, t, k);
      }
    } else {
      var p, s, at := VulnerableSplit(t);
      VulnerableTermRemains(fold, t, z, p, s, at);
    }
  }

  /** Around a mask, a beginning and an end of a term that is not resistant make the term again. */
  lemma VulnerableSplit(t: string) returns (p: string, s: string, at: nat)
    requires !Resistant(t) && t != []
    ensures |p| < |t| && |s| < |t| && p == t[..|p|] && s == t[|t| - |s|..]
    ensures OccursAt(t, p + MASK + s, at)
  {
    if t[0] == '*' {
      p, s, at := [], t[1..], 2;
      assert (p + MASK + s)[2..] == t;
    } else if t[|t| - 1] == '*' {
      p, s, at := t[..|t| - 1], [], 0;
      assert t <= p + MASK + s && (p + MASK + s)[0..] == p + MASK + s;
    } else {
      var i :| StarsAt(t, i);
      p, s, at := t[..i], t[i + 3..], 0;
      assert p + MASK + s == t && t[0..] == t;
    }
  }

  lemma FoldOfPart(fold: char -> char, t: string, p: string, s: string)
    requires FoldAll(fold, t) == t && |p| <= |t| && |s| <= |t|
    requires p == t[..|p|] && s == t[|t| - |s|..]
    ensures FoldAll(fold, p) == p && FoldAll(fold, s) == s
  {
    forall i | 0 <= i < |p| ensures fold(p[i]) == p[i] { assert FoldAll(fold, t)[i] == t[i]; }
    forall i | 0 <= i < |s| ensures fold(s[i]) == s[i] {
      assert FoldAll(fold, t)[|t| - |s| + i] == t[|t| - |s| + i];
    }
  }

  /** Masking twice is not masking once for the list `**`. */
  lemma StarTermIsNotIdempotent()
    ensures var id := (c: char) => c;
            Masked(id, {"**"}, Masked(id, {"**"}, "**")) != Masked(id, {"**"}, "**")
  {
    var id := (c: char) => c;
    var terms := {"**"};
    assert FoldAll(id, "**") == "**" && FoldAll(id, "***") == "***" && FoldAll(id, "*") == "*";
    LongestMatchMeaning(terms, "**");
    LongestMatchMeaning(terms, "***");
    LongestMatchMeaning(terms, "*");
    assert Masked(id, terms, "**") == "***" by {
      assert "**" <= "**" && "**"[2..] == "";
    }
    assert "**" <= "***" && "***"[2..] == "*" && "*"[1..] == "";
    assert Masked(id, terms, "*") == "*";
    assert Masked(id, terms, "***") == "****";
  }

  /** Twice the output length never exceeds three times the input length. */
  lemma {:induction false} MaskedLength(fold: char -> char, terms: set<string>, text: string)
    requires Listable(terms)
    ensures 2 * |Masked(fold, terms, text)| <= 3 * |text|
    decreases |text|
  {
    if text != [] {
      LongestMatchMeaning(terms, FoldAll(fold, text));
      var n := LongestMatch(terms, FoldAll(fold, text));
      MaskedLength(fold, terms, if n == 0 then text[1..] else text[n..]);
    }
  }
}
