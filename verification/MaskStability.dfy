/**
 When masking changes a text, and when masking a second time changes nothing more: exact conditions on
 the listed terms, which may hold stars themselves.
 */
module MaskStability {
  import opened TermList
  import opened ContentFilter

  // ---------------------------------------------------------------------------------------
  // When an unchanged text is a clean one
  // ---------------------------------------------------------------------------------------

  /** The first `n` characters are stars. */
  predicate StarsFirst(s: string, n: nat) {
    n <= |s| && forall i :: 0 <= i < n ==> s[i] == '*'
  }

  function Stars(n: nat): (r: string)
    ensures |r| == n && StarsFirst(r, n)
  {
    seq(n, i => '*')
  }

  lemma AreStars(s: string)
    requires StarsFirst(s, |s|)
    ensures s == Stars(|s|)
  {
  }

  /** The longest listed term at the front of `n` stars. */
  function StarMatch(terms: set<string>, n: nat): (r: nat)
    ensures r <= n
  {
    LongestMatch(terms, Stars(n))
  }

  lemma StarMatchMeaning(terms: set<string>, n: nat)
    ensures StarMatch(terms, n) > 0 ==> Stars(StarMatch(terms, n)) in terms
    ensures forall k: nat :: k <= n && Stars(k) in terms ==> k <= StarMatch(terms, n)
  {
    LongestMatchMeaning(terms, Stars(n));
    AreStars(Stars(n)[..StarMatch(terms, n)]);
    forall k: nat | k <= n && Stars(k) in terms ensures k <= StarMatch(terms, n) {
      assert Stars(k) <= Stars(n);
    }
  }

  /** How many stars masking makes of `n` stars. */
  function StarCount(terms: set<string>, n: nat): nat {
    if n == 0 then 0
    else if StarMatch(terms, n) == 0 then 1 + StarCount(terms, n - 1)
    else 3 + StarCount(terms, n - StarMatch(terms, n))
  }

  lemma {:induction false} MaskedStars(fold: char -> char, terms: set<string>, n: nat)
    requires fold('*') == '*'
    ensures Masked(fold, terms, Stars(n)) == Stars(StarCount(terms, n))
  {
    if n > 0 {
      var k := StarMatch(terms, n);
      var j := if k == 0 then 1 else k;
      AreStars(FoldAll(fold, Stars(n)));
      AreStars(Stars(n)[j..]);
      MaskedStars(fold, terms, n - j);
      AreStars("*" + Stars(StarCount(terms, n - j)));
      AreStars(MASK + Stars(StarCount(terms, n - j)));
    }
  }

  /** A match within a run of stars at the front of a text is the match in the run alone. */
  lemma MatchInRun(fold: char -> char, terms: set<string>, text: string, m: nat)
    requires fold('*') == '*' && StarsFirst(text, m) && LongestMatch(terms, FoldAll(fold, text)) <= m
    ensures StarMatch(terms, m) == LongestMatch(terms, FoldAll(fold, text))
  {
    var folded := FoldAll(fold, text);
    LongestMatchMeaning(terms, folded);
    StarMatchMeaning(terms, m);
    assert Stars(StarMatch(terms, m)) <= folded;
    AreStars(folded[..LongestMatch(terms, folded)]);
  }

  // ---------------------------------------------------------------------------------------
  // A kept text gets out of step and into step again through stars
  // ---------------------------------------------------------------------------------------

  /** Masking the first `m` characters of `rest`, all stars, makes them `k` more. */
  ghost predicate MadeUp(terms: set<string>, rest: string, m: nat, k: int) {
    StarsFirst(rest, m) && StarCount(terms, m) == m + k
  }

  lemma CopyMadeUp(fold: char -> char, terms: set<string>, rest: string, m: nat, k: int)
    requires fold('*') == '*' && rest != [] && rest[0] == '*' && LongestMatch(terms, FoldAll(fold, rest)) == 0
    requires MadeUp(terms, rest[1..], m, k)
    ensures MadeUp(terms, rest, m + 1, k)
  {
    assert forall i :: 1 <= i < m + 1 ==> rest[i] == rest[1..][i - 1];
    MatchInRun(fold, terms, rest, m + 1);
  }

  lemma MatchMadeUp(fold: char -> char, terms: set<string>, rest: string, n: nat, m: nat, k: int)
    requires fold('*') == '*' && StarsFirst(rest, n) && 0 < n == LongestMatch(terms, FoldAll(fold, rest))
    requires MadeUp(terms, rest[n..], m, k + n - 3)
    ensures MadeUp(terms, rest, n + m, k)
  {
    assert forall i :: n <= i < n + m ==> rest[i] == rest[n..][i - n];
    MatchInRun(fold, terms, rest, n + m);
  }

  /** Copying a character turns `pending` around by one. */
  lemma BehindAfterCopy(fold: char -> char, terms: set<string>, pending: string, rest: string)
    requires pending != [] && Masked(fold, terms, rest) == pending + rest
    requires LongestMatch(terms, FoldAll(fold, rest)) == 0
    ensures rest != [] && pending[0] == rest[0]
    ensures Masked(fold, terms, rest[1..]) == (pending[1..] + [rest[0]]) + rest[1..]
  {
    var out := Masked(fold, terms, rest);
    assert out[0] == (pending + rest)[0];
    assert out[1..] == (pending + rest)[1..] == (pending[1..] + [rest[0]]) + rest[1..];
  }

  lemma TurnedStars(pending: string, c: char)
    requires pending != [] && pending[0] == c && StarsFirst(pending[1..] + [c], |pending|)
    ensures StarsFirst(pending, |pending|) && c == '*'
  {
    assert c == (pending[1..] + [c])[|pending| - 1];
    assert forall i :: 1 <= i < |pending| ==> pending[i] == (pending[1..] + [c])[i - 1];
  }

  /** A match drops three stars from `pending` and appends what it matched. */
  lemma BehindAfterMatch(fold: char -> char, terms: set<string>, pending: string, rest: string, n: nat)
    requires Listable(terms) && pending != [] && Masked(fold, terms, rest) == pending + rest
    requires 0 < n == LongestMatch(terms, FoldAll(fold, rest))
    ensures |pending| + n >= 3 && StarsFirst(pending + rest, 3)
    ensures Masked(fold, terms, rest[n..]) == (pending + rest[..n])[3..] + rest[n..]
  {
    MatchIsListed(fold, terms, rest, n);
    DropThree(pending, rest, n, Masked(fold, terms, rest[n..]));
  }

  lemma MatchIsListed(fold: char -> char, terms: set<string>, rest: string, n: nat)
    requires Listable(terms) && 0 < n == LongestMatch(terms, FoldAll(fold, rest))
    ensures 2 <= n <= |rest| && Masked(fold, terms, rest) == MASK + Masked(fold, terms, rest[n..])
  {
    LongestMatchMeaning(terms, FoldAll(fold, rest));
  }

  lemma DropThree(pending: string, rest: string, n: nat, tail: string)
    requires n <= |rest| && |pending| + n >= 3 && pending + rest == MASK + tail
    ensures StarsFirst(pending + rest, 3) && tail == (pending + rest[..n])[3..] + rest[n..]
  {
    assert tail == (MASK + tail)[3..];
    assert (pending + rest)[3..] == (pending + rest[..n])[3..] + rest[n..];
  }

  lemma PendingStars(pending: string, rest: string, n: nat)
    requires n <= |rest| && |pending| + n >= 3 && StarsFirst(pending + rest, 3)
    requires StarsFirst((pending + rest[..n])[3..], |pending| + n - 3)
    ensures StarsFirst(pending, |pending|) && StarsFirst(rest, n)
  {
    var all := pending + rest[..n];
    forall i | 0 <= i < |all| ensures all[i] == '*' {
      if i < 3 {
        assert all[i] == (pending + rest)[i];
      } else {
        assert all[i] == all[3..][i - 3];
      }
    }
    assert forall i :: 0 <= i < n ==> rest[i] == all[|pending| + i];
    assert forall i :: 0 <= i < |pending| ==> pending[i] == all[i];
  }

  /**
   An output that has fallen behind by `pending` catches up only through stars: a character that is not a
   star would stay pending for ever.
   */
  lemma {:induction false} CatchesUpInStars(fold: char -> char, terms: set<string>, pending: string, rest: string)
    returns (m: nat)
    requires Listable(terms) && fold('*') == '*' && pending != [] && Masked(fold, terms, rest) == pending + rest
    ensures StarsFirst(pending, |pending|) && MadeUp(terms, rest, m, |pending|)
    decreases |rest|, 1
  {
    var n := LongestMatch(terms, FoldAll(fold, rest));
    if n == 0 {
      BehindAfterCopy(fold, terms, pending, rest);
      m := CatchesUpInStars(fold, terms, pending[1..] + [rest[0]], rest[1..]);
      TurnedStars(pending, rest[0]);
      CopyMadeUp(fold, terms, rest, m, |pending|);
      m := m + 1;
    } else {
      BehindAfterMatch(fold, terms, pending, rest, n);
      m := CatchesUpAfterMatch(fold, terms, pending, rest, n);
    }
  }

  lemma {:induction false} CatchesUpAfterMatch(
      fold: char -> char, terms: set<string>, pending: string, rest: string, n: nat) returns (m: nat)
    requires Listable(terms) && fold('*') == '*' && 0 < n == LongestMatch(terms, FoldAll(fold, rest))
    requires |pending| + n >= 3 && StarsFirst(pending + rest, 3)
    requires Masked(fold, terms, rest[n..]) == (pending + rest[..n])[3..] + rest[n..]
    ensures StarsFirst(pending, |pending|) && MadeUp(terms, rest, m, |pending|)
    decreases |rest|, 0
  {
    var next := (pending + rest[..n])[3..];
    m := StaysInStars(fold, terms, next, rest[n..]);
    PendingStars(pending, rest, n);
    assert |next| == |pending| + n - 3;
    MatchMadeUp(fold, terms, rest, n, m, |pending|);
    m := n + m;
  }

  /** The same for an output that may be in step already. */
  lemma {:induction false} StaysInStars(
      fold: char -> char, terms: set<string>, pending: string, rest: string) returns (m: nat)
    requires Listable(terms) && fold('*') == '*' && Masked(fold, terms, rest) == pending + rest
    ensures StarsFirst(pending, |pending|) && MadeUp(terms, rest, m, |pending|)
    decreases |rest|, 2
  {
    m := 0;
    if pending != [] {
      m := CatchesUpInStars(fold, terms, pending, rest);
    }
  }

  lemma AheadAfterCopy(fold: char -> char, terms: set<string>, ahead: nat, rest: string)
    requires 0 < ahead && StarsFirst(rest, ahead) && Masked(fold, terms, rest) == rest[ahead..]
    requires LongestMatch(terms, FoldAll(fold, rest)) == 0
    ensures rest != [] && rest[0] == '*' && StarsFirst(rest[1..], ahead)
    ensures Masked(fold, terms, rest[1..]) == rest[1..][ahead..]
  {
    var out := Masked(fold, terms, rest);
    assert out[0] == rest[ahead..][0] == rest[ahead];
    assert out[1..] == rest[ahead..][1..] == rest[1..][ahead..];
  }

  lemma AheadAfterMatch(fold: char -> char, terms: set<string>, ahead: nat, rest: string, n: nat)
    requires StarsFirst(rest, ahead) && Masked(fold, terms, rest) == rest[ahead..]
    requires 0 < n == LongestMatch(terms, FoldAll(fold, rest))
    ensures StarsFirst(rest, ahead + 3) && Masked(fold, terms, rest[n..]) == rest[ahead + 3..]
  {
    var out := Masked(fold, terms, rest);
    assert out == MASK + Masked(fold, terms, rest[n..]);
    assert out[3..] == Masked(fold, terms, rest[n..]);
    assert rest[ahead..][3..] == rest[ahead + 3..];
    forall i | ahead <= i < ahead + 3 ensures rest[i] == '*' {
      assert rest[i] == out[i - ahead];
    }
  }

  /** An output that is `ahead` by stars, or is just about to fall out of step, gets into step through stars. */
  lemma {:induction false} FallsBackInStars(fold: char -> char, terms: set<string>, ahead: nat, rest: string)
    returns (m: nat)
    requires Listable(terms) && fold('*') == '*' && StarsFirst(rest, ahead) && Masked(fold, terms, rest) == rest[ahead..]
    requires ahead == 0 ==> LongestMatch(terms, FoldAll(fold, rest)) > 0
    ensures MadeUp(terms, rest, m, 0 - ahead) && LongestMatch(terms, FoldAll(fold, rest)) <= m
    decreases |rest|, 2
  {
    var n := LongestMatch(terms, FoldAll(fold, rest));
    if n == 0 {
      AheadAfterCopy(fold, terms, ahead, rest);
      m := FallsBackInStars(fold, terms, ahead, rest[1..]);
      CopyMadeUp(fold, terms, rest, m, 0 - ahead);
      m := m + 1;
    } else {
      AheadAfterMatch(fold, terms, ahead, rest, n);
      m := FallsBackAfterMatch(fold, terms, ahead, rest, n);
    }
  }

  lemma {:induction false} FallsBackAfterMatch(
      fold: char -> char, terms: set<string>, ahead: nat, rest: string, n: nat) returns (m: nat)
    requires Listable(terms) && fold('*') == '*' && 0 < n == LongestMatch(terms, FoldAll(fold, rest))
    requires StarsFirst(rest, ahead + 3) && Masked(fold, terms, rest[n..]) == rest[ahead + 3..]
    ensures MadeUp(terms, rest, m, 0 - ahead) && n <= m
    decreases |rest|, 1
  {
    m := AfterMatchInStars(fold, terms, ahead + 3, rest, n);
    assert MadeUp(terms, rest[n..], m, (0 - ahead) + n - 3);
    MatchMadeUp(fold, terms, rest, n, m, 0 - ahead);
    m := n + m;
  }

  /** A match of `n` characters gave way to an output of `written` stars, all of them in the text. */
  lemma {:induction false} AfterMatchInStars(fold: char -> char, terms: set<string>, written: nat, rest: string, n: nat)
    returns (m: nat)
    requires Listable(terms) && fold('*') == '*' && StarsFirst(rest, written)
    requires 0 < n <= |rest| && Masked(fold, terms, rest[n..]) == rest[written..]
    ensures StarsFirst(rest, n) && MadeUp(terms, rest[n..], m, n - written)
    decreases |rest|, 0
  {
    if n >= written {
      var pending := rest[written..n];
      assert rest[written..] == pending + rest[n..];
      m := StaysInStars(fold, terms, pending, rest[n..]);
      assert forall i :: written <= i < n ==> rest[i] == pending[i - written];
    } else {
      assert rest[written..] == rest[n..][written - n..];
      m := FallsBackInStars(fold, terms, written - n, rest[n..]);
    }
  }

  /** `n` stars come back as they are although a listed term occurs in them. */
  ghost predicate Deceives(fold: char -> char, terms: set<string>, n: nat) {
    Masked(fold, terms, Stars(n)) == Stars(n) && !Clean(fold, terms, Stars(n))
  }

  /** That is, they keep their number, and some listed term is stars and no longer than they are. */
  lemma DeceptionIsCounted(fold: char -> char, terms: set<string>, n: nat)
    requires fold('*') == '*' && Listable(terms)
    ensures Deceives(fold, terms, n) <==> StarCount(terms, n) == n && StarMatch(terms, n) > 0
  {
    MaskedStars(fold, terms, n);
    UncleanStars(fold, terms, n);
    assert |Stars(StarCount(terms, n))| == StarCount(terms, n);
  }

  lemma UncleanStars(fold: char -> char, terms: set<string>, n: nat)
    requires fold('*') == '*' && Listable(terms)
    ensures Clean(fold, terms, Stars(n)) <==> StarMatch(terms, n) == 0
  {
    AreStars(FoldAll(fold, Stars(n)));
    StarMatchMeaning(terms, n);
    var k := StarMatch(terms, n);
    if k > 0 {
      assert Stars(n)[0..] == Stars(n) && Stars(k) <= Stars(n);
      assert OccursAt(Stars(k), Stars(n), 0);
    } else {
      forall t, i | t in terms ensures !OccursAt(t, Stars(n), i) {
        if OccursAt(t, Stars(n), i) {
          AreStars(t);
        }
      }
    }
  }

  lemma EmptyIsClean(fold: char -> char, terms: set<string>)
    requires Listable(terms)
    ensures Clean(fold, terms, [])
  {
    forall t, i | t in terms ensures !OccursAt(t, FoldAll(fold, []), i) { }
  }

  /** A text that comes back as it is although a term matches at its front begins with stars that do. */
  lemma FrontHoldsStars(fold: char -> char, terms: set<string>, text: string) returns (n: nat)
    requires Listable(terms) && fold('*') == '*'
    requires Masked(fold, terms, text) == text && LongestMatch(terms, FoldAll(fold, text)) > 0
    ensures StarsFirst(text, n) && Deceives(fold, terms, n)
  {
    assert text[0..] == text;
    n := FallsBackInStars(fold, terms, 0, text);
    MatchInRun(fold, terms, text, n);
    DeceptionIsCounted(fold, terms, n);
  }

  /** A text that comes back as it is although a listed term occurs in it holds a run of stars that does. */
  lemma {:induction false} KeptTextHoldsStars(fold: char -> char, terms: set<string>, text: string)
    returns (i: nat, n: nat)
    requires Listable(terms) && fold('*') == '*'
    requires Masked(fold, terms, text) == text && !Clean(fold, terms, text)
    ensures i <= |text| && StarsFirst(text[i..], n) && Deceives(fold, terms, n)
    decreases |text|
  {
    EmptyIsClean(fold, terms);
    if LongestMatch(terms, FoldAll(fold, text)) > 0 {
      n := FrontHoldsStars(fold, terms, text);
      i := 0;
      assert text[0..] == text;
    } else {
      CleanTail(fold, terms, text);
      KeptTail(fold, terms, text);
      i, n := KeptTextHoldsStars(fold, terms, text[1..]);
      assert text[i + 1..] == text[1..][i..];
      i := i + 1;
    }
  }

  lemma KeptTail(fold: char -> char, terms: set<string>, text: string)
    requires text != [] && Masked(fold, terms, text) == text && LongestMatch(terms, FoldAll(fold, text)) == 0
    ensures Masked(fold, terms, text[1..]) == text[1..]
  {
    assert text[1..] == ([text[0]] + Masked(fold, terms, text[1..]))[1..];
  }

  // ---------------------------------------------------------------------------------------
  // Which runs of stars to look at
  // ---------------------------------------------------------------------------------------

  lemma StarMatchGrows(terms: set<string>, j: nat, n: nat)
    requires j <= n
    ensures StarMatch(terms, j) <= StarMatch(terms, n)
    ensures StarMatch(terms, n) <= j ==> StarMatch(terms, j) == StarMatch(terms, n)
  {
    StarMatchMeaning(terms, j);
    StarMatchMeaning(terms, n);
  }

  /** Matches of two stars and more make at most half as many again. */
  lemma {:induction false} StarCountIsBounded(terms: set<string>, n: nat)
    requires Listable(terms)
    ensures 2 * StarCount(terms, n) <= 3 * n
  {
    if n > 0 {
      StarMatchMeaning(terms, n);
      var k := StarMatch(terms, n);
      assert k > 0 ==> |Stars(k)| >= 2;
      StarCountIsBounded(terms, if k == 0 then n - 1 else n - k);
    }
  }

  /** Matches of at most three stars do not shorten a run, matches of at least three do not lengthen it. */
  lemma {:induction false} StarCountOneSided(terms: set<string>, n: nat)
    ensures StarMatch(terms, n) <= 3 ==> StarCount(terms, n) >= n
    ensures Stars(1) !in terms && Stars(2) !in terms ==> StarCount(terms, n) <= n
  {
    if n > 0 {
      var k := StarMatch(terms, n);
      var j := if k == 0 then n - 1 else n - k;
      StarMatchMeaning(terms, n);
      StarMatchGrows(terms, j, n);
      StarCountOneSided(terms, j);
    }
  }

  /** With two stars as the longest match a run grows. */
  lemma TwoStarsGrow(terms: set<string>, n: nat)
    requires StarMatch(terms, n) == 2
    ensures StarCount(terms, n) > n
  {
    StarMatchGrows(terms, n - 2, n);
    StarCountOneSided(terms, n - 2);
  }

  /** A run of twice the longest match or more shrinks, if that match is longer than the mask. */
  lemma {:induction false} LongRunsShrink(terms: set<string>, n: nat)
    requires Listable(terms) && StarMatch(terms, n) > 3 && n >= 2 * StarMatch(terms, n)
    ensures StarCount(terms, n) < n
  {
    var k := StarMatch(terms, n);
    StarMatchGrows(terms, n - k, n);
    if n - k >= 2 * k {
      LongRunsShrink(terms, n - k);
    } else {
      StarCountIsBounded(terms, n - k - k);
    }
  }

  /** If any run of stars deceives, one shorter than twice the longest listed run does. */
  lemma ShortRunDeceives(fold: char -> char, terms: set<string>, longest: nat, n: nat) returns (m: nat)
    requires Listable(terms) && fold('*') == '*' && (forall k: nat :: Stars(k) in terms ==> k <= longest)
    requires Deceives(fold, terms, n)
    ensures m < 2 * longest && Deceives(fold, terms, m)
  {
    var k := StarMatch(terms, n);
    DeceptionIsCounted(fold, terms, n);
    StarMatchMeaning(terms, n);
    assert |Stars(k)| >= MIN_FILTER_TERM_CHARS;
    m := n;
    if k == 2 {
      TwoStarsGrow(terms, n);
    } else if k == 3 {
      m := 3;
      StarMatchGrows(terms, 3, n);
      DeceptionIsCounted(fold, terms, 3);
    } else if n >= 2 * k {
      LongRunsShrink(terms, n);
    }
  }

  /**
   A text comes back unchanged exactly when no listed term occurs in it, unless it holds a run of stars
   that comes back unchanged with a listed term in it.
   */
  lemma UnchangedExactlyWhenClean(fold: char -> char, terms: set<string>, text: string)
    requires Listable(terms) && fold('*') == '*'
    ensures Clean(fold, terms, text) ==> Masked(fold, terms, text) == text
    ensures Masked(fold, terms, text) == text ==>
      || Clean(fold, terms, text)
      || exists i, n :: 0 <= i <= |text| && StarsFirst(text[i..], n) && Deceives(fold, terms, n)
  {
    if Clean(fold, terms, text) {
      CleanTextIsKept(fold, terms, text);
    } else if Masked(fold, terms, text) == text {
      var i, n := KeptTextHoldsStars(fold, terms, text);
    }
  }

  /**
   Unchanged means clean for every text if and only if it does for the runs of stars shorter than twice
   `longest`, which is the length of the longest listed run of stars or anything above.
   */
  lemma UnchangedMeansCleanExactly(fold: char -> char, terms: set<string>, longest: nat)
    requires Listable(terms) && fold('*') == '*' && forall k: nat :: Stars(k) in terms ==> k <= longest
    ensures (forall text :: Masked(fold, terms, text) == text <==> Clean(fold, terms, text))
       <==> (forall n: nat :: n < 2 * longest ==> !Deceives(fold, terms, n))
  {
    if n: nat :| n < 2 * longest && Deceives(fold, terms, n) {
      assert !(Masked(fold, terms, Stars(n)) == Stars(n) <==> Clean(fold, terms, Stars(n)));
    } else {
      forall text ensures Masked(fold, terms, text) == text <==> Clean(fold, terms, text) {
        if Clean(fold, terms, text) {
          CleanTextIsKept(fold, terms, text);
        } else if Masked(fold, terms, text) == text {
          var i, n := KeptTextHoldsStars(fold, terms, text);
          var m := ShortRunDeceives(fold, terms, longest, n);
        }
      }
    }
  }

  /** For a list that `from_terms` accepts, the runs shorter than twice the longest allowed term decide. */
  lemma AcceptedListsAreDecided(u: Unicode, list: seq<string>)
    requires Build(Judging(u), list).Ok? && u.fold('*') == '*'
    ensures var terms := Members(Build(Judging(u), list).value);
      (forall text :: Masked(u.fold, terms, text) == text <==> Clean(u.fold, terms, text))
      <==> (forall n: nat :: n < 2 * MAX_FILTER_TERM_CHARS ==> !Deceives(u.fold, terms, n))
  {
    BuildMeaning(Judging(u), list);
    var terms := Members(Build(Judging(u), list).value);
    assert forall t :: t in terms ==> MIN_FILTER_TERM_CHARS <= |t| <= MAX_FILTER_TERM_CHARS;
    forall k: nat | Stars(k) in terms ensures k <= MAX_FILTER_TERM_CHARS {
      assert |Stars(k)| == k;
    }
    UnchangedMeansCleanExactly(u.fold, terms, MAX_FILTER_TERM_CHARS);
  }

  /** No run deceives if three stars are not listed, nor two stars beside a run of more than three. */
  lemma OneSidedListsAreHonest(fold: char -> char, terms: set<string>, n: nat)
    requires Listable(terms) && fold('*') == '*' && Stars(3) !in terms
    requires Stars(2) !in terms || forall k: nat :: k > 3 ==> Stars(k) !in terms
    ensures !Deceives(fold, terms, n)
  {
    var k := StarMatch(terms, n);
    DeceptionIsCounted(fold, terms, n);
    StarMatchMeaning(terms, n);
    if k == 2 {
      TwoStarsGrow(terms, n);
    } else if k > 0 {
      assert |Stars(k)| >= MIN_FILTER_TERM_CHARS && |Stars(1)| == 1;
      StarCountOneSided(terms, n - k);
    }
  }

  /** Lengths can even out: `**` and `****` leave six stars as they are. */
  lemma StarsEvenOut()
    ensures var id := (c: char) => c; Masked(id, {"**", "****"}, "******") == "******" && !Clean(id, {"**", "****"}, "******")
  {
    var id, terms := (c: char) => c, {"**", "****"};
    assert FoldAll(id, "******") == "******" && FoldAll(id, "**") == "**";
    LongestMatchMeaning(terms, "******");
    LongestMatchMeaning(terms, "**");
    assert "****" <= "******" && "******"[4..] == "**" && "**" <= "**" && "**"[2..] == "";
    assert Masked(id, terms, "**") == "***";
    assert "***" + "***" == "******";
    assert "******"[0..] == "******" && OccursAt("****", "******", 0);
  }

  // ---------------------------------------------------------------------------------------
  // When masking twice is masking once
  // ---------------------------------------------------------------------------------------

  /** Terms that do not occur in a text have no say in its masking. */
  lemma {:induction false} OthersHaveNoSay(fold: char -> char, terms: set<string>, t: string, text: string)
    requires Listable(terms) && t in terms
    requires forall u :: u in terms && u != t ==> !Occurs(u, FoldAll(fold, text))
    ensures Masked(fold, terms, text) == Masked(fold, {t}, text)
    decreases |text|
  {
    if text != [] {
      var folded := FoldAll(fold, text);
      LongestMatchMeaning(terms, folded);
      LongestMatchMeaning({t}, folded);
      var n := LongestMatch(terms, folded);
      forall u | u in terms && u != t ensures !(u <= folded) {
        OccursTail(u, folded);
      }
      assert n == LongestMatch({t}, folded);
      var k := if n == 0 then 1 else n;
      OccursLater(fold, terms, t, text, k);
      OthersHaveNoSay(fold, terms, t, text[k..]);
    }
  }

  lemma OccursLater(fold: char -> char, terms: set<string>, t: string, text: string, k: nat)
    requires k <= |text| && forall u :: u in terms && u != t ==> !Occurs(u, FoldAll(fold, text))
    ensures forall u :: u in terms && u != t ==> !Occurs(u, FoldAll(fold, text[k..]))
  {
    FoldSuffix(fold, text, k);
    var folded := FoldAll(fold, text);
    forall u | u in terms && u != t ensures !Occurs(u, folded[k..]) {
      if i :| OccursAt(u, folded[k..], i) {
        assert folded[k..][i..] == folded[k + i..];
        assert OccursAt(u, folded, k + i);
      }
    }
  }

  /** Three stars are replaced by themselves. */
  lemma {:induction false} MaskOfMask(fold: char -> char, text: string)
    requires forall c :: fold(c) == '*' <==> c == '*'
    ensures Masked(fold, {MASK}, text) == text
    decreases |text|
  {
    if text != [] {
      var folded := FoldAll(fold, text);
      LongestMatchMeaning({MASK}, folded);
      var n := LongestMatch({MASK}, folded);
      if n == 0 {
        MaskOfMask(fold, text[1..]);
        assert text == [text[0]] + text[1..];
      } else {
        MaskOfMask(fold, text[3..]);
        assert folded[..3] == MASK && text[..3] == MASK;
        assert text == text[..3] + text[3..];
      }
    }
  }

  ghost predicate OthersResist(terms: set<string>, t: string) {
    forall u :: u in terms && u != t ==> Resistant(u)
  }

  lemma OthersAreGone(fold: char -> char, terms: set<string>, t: string, text: string)
    requires fold('*') == '*' && Listable(terms) && OthersResist(terms, t)
    ensures forall u :: u in terms && u != t ==> !Occurs(u, FoldAll(fold, Masked(fold, terms, text)))
  {
    forall u, k: nat | u in terms && u != t ensures !OccursAt(u, FoldAll(fold, Masked(fold, terms, text)), k) {
      ResistantTermNeverRemains(fold, terms, text, u, k);
    }
  }

  /** Masking twice is masking once, in every list that has `t` beside resistant terms. */
  ghost predicate AlwaysIdempotent(fold: char -> char, t: string) {
    forall terms, text :: t in terms && Listable(terms) && OthersResist(terms, t) ==>
      Masked(fold, terms, Masked(fold, terms, text)) == Masked(fold, terms, text)
  }

  lemma StableTermIsIdempotent(fold: char -> char, terms: set<string>, t: string, text: string)
    requires (forall c :: fold(c) == '*' <==> c == '*') && t in terms && Listable(terms) && OthersResist(terms, t)
    requires Resistant(t) || t == MASK
    ensures Masked(fold, terms, Masked(fold, terms, text)) == Masked(fold, terms, text)
  {
    if Resistant(t) {
      MaskingLeavesNoResidue(fold, terms, text);
    } else {
      OthersAreGone(fold, terms, t, text);
      OthersHaveNoSay(fold, terms, t, Masked(fold, terms, text));
      MaskOfMask(fold, Masked(fold, terms, text));
    }
  }

  /** A text in which one listed term occurs, and it is not three stars, changes. */
  lemma SingleTermChanges(fold: char -> char, terms: set<string>, t: string, text: string)
    requires fold('*') == '*' && Listable(terms) && t in terms && t != MASK && Occurs(t, FoldAll(fold, text))
    requires forall u :: u in terms && u != t ==> !Occurs(u, FoldAll(fold, text))
    ensures Masked(fold, terms, text) != text
  {
    OthersHaveNoSay(fold, terms, t, text);
    if Masked(fold, {t}, text) == text {
      var i, n := KeptTextHoldsStars(fold, {t}, text);
      OneSidedListsAreHonest(fold, {t}, n);
    }
  }

  /** A text without `z` holds no pair of them. */
  lemma HelperIsGone(z: char, text: string)
    requires z !in text
    ensures !Occurs([z, z], text)
  {
    forall i ensures !OccursAt([z, z], text, i) {
      if 0 <= i < |text| {
        assert text[i..][0] == text[i] != z;
      }
    }
  }

  lemma FoldAround(fold: char -> char, p: string, s: string)
    requires fold('*') == '*' && FoldAll(fold, p) == p && FoldAll(fold, s) == s
    ensures FoldAll(fold, p + MASK + s) == p + MASK + s
  {
  }

  /** The helper pair is resistant, since a term that is not resistant has a star and `z` is not in it. */
  lemma HelperResists(t: string, z: char)
    requires |t| >= MIN_FILTER_TERM_CHARS && !Resistant(t) && z !in t
    ensures z != '*' && Resistant([z, z])
  {
    if '*' !in t {
      StarFreeTermsResist(t);
    }
  }

  /** Masking the output `out` again changes it: the term occurs in it, and the helper pair does not. */
  lemma OutputChanges(fold: char -> char, t: string, z: char, text: string, out: string)
    requires fold('*') == '*' && |t| >= MIN_FILTER_TERM_CHARS && t != MASK && Resistant([z, z])
    requires Masked(fold, {t, [z, z]}, text) == out && FoldAll(fold, out) == out && z !in out && Occurs(t, out)
    ensures !AlwaysIdempotent(fold, t)
  {
    var terms := {t, [z, z]};
    HelperIsGone(z, out);
    SingleTermChanges(fold, terms, t, out);
    assert t in terms && Listable(terms) && OthersResist(terms, t);
    assert Masked(fold, terms, Masked(fold, terms, text)) != Masked(fold, terms, text);
  }

  lemma UnstableTermRepeats(fold: char -> char, t: string, z: char)
    requires fold('*') == '*' && |t| >= MIN_FILTER_TERM_CHARS && FoldAll(fold, t) == t
    requires z !in t && fold(z) == z && !Resistant(t) && t != MASK
    ensures !AlwaysIdempotent(fold, t)
  {
    var p, s, at := VulnerableSplit(t);
    HelperResists(t, z);
    FoldOfPart(fold, t, p, s);
    FoldAround(fold, p, s);
    MaskAroundHelper(fold, t, z, p, s);
    OutputChanges(fold, t, z, p + [z, z] + s, p + MASK + s);
  }

  /**
   Beside resistant terms, a term lets masking be repeated without effect, in every list and on every
   text, if and only if it is resistant or three stars.
   */
  lemma IdempotenceIsExact(fold: char -> char, t: string, z: char)
    requires forall c :: fold(c) == '*' <==> c == '*'
    requires |t| >= MIN_FILTER_TERM_CHARS && FoldAll(fold, t) == t && z !in t && fold(z) == z
    ensures AlwaysIdempotent(fold, t) <==> Resistant(t) || t == MASK
  {
    if Resistant(t) || t == MASK {
      forall terms, text | t in terms && Listable(terms) && OthersResist(terms, t)
        ensures Masked(fold, terms, Masked(fold, terms, text)) == Masked(fold, terms, text)
      {
        StableTermIsIdempotent(fold, terms, t, text);
      }
    } else {
      UnstableTermRepeats(fold, t, z);
    }
  }
}
