/**
 How a list of raw filter terms becomes the stored vector (`from_terms`).

 Unicode tables are parameters: `fold` is the single-character lower-case fold,
 `control` and `whitespace` the character tests.
 */
module TermList {
  import opened Common
  import Ordering

  const MAX_FILTER_TERMS := 500
  const MAX_FILTER_TERM_CHARS := 64
  const MIN_FILTER_TERM_CHARS := 2

  datatype Unicode = Unicode(fold: char -> char, control: char -> bool, whitespace: char -> bool)

  /** What can be wrong with one entry, and with the list as a whole. */
  datatype EntryError = TermTooLong | TermTooShort | ControlCharacter
  datatype FilterError = EmptyList | TooManyTerms | Entry(error: EntryError)

  /** What one raw list entry turns out to be. */
  datatype Verdict = Blank | Bad(error: EntryError) | Good(term: string)

  /** The list lemmas below hold for every way of judging entries. */
  type Judgement = string -> Verdict

  function FoldAll(fold: char -> char, s: string): (r: string)
    ensures |r| == |s|
    ensures forall i :: 0 <= i < |s| ==> r[i] == fold(s[i])
  {
    seq(|s|, i requires 0 <= i < |s| => fold(s[i]))
  }

  function Judge(u: Unicode, raw: string): Verdict {
    var term := Trim(u.whitespace, raw);
    if term == [] then Blank
    else if exists i :: 0 <= i < |term| && u.control(term[i]) then Bad(ControlCharacter)
    else if |term| > MAX_FILTER_TERM_CHARS then Bad(TermTooLong)
    else if |term| < MIN_FILTER_TERM_CHARS then Bad(TermTooShort)
    else Good(FoldAll(u.fold, term))
  }

  // ---------------------------------------------------------------------------------------
  // One entry
  // ---------------------------------------------------------------------------------------

  /** `term` is `raw[i..j]`, with nothing but whitespace before and after it and none at its ends. */
  ghost predicate IsCore(whitespace: char -> bool, raw: string, term: string, i: nat, j: nat) {
    && i <= j <= |raw| && term == raw[i..j]
    && (forall k :: 0 <= k < i ==> whitespace(raw[k])) && (forall k :: j <= k < |raw| ==> whitespace(raw[k]))
    && (term != [] ==> !whitespace(term[0]) && !whitespace(term[|term| - 1]))
  }

  lemma {:induction false} TrimStartSplits(whitespace: char -> bool, s: string) returns (i: nat)
    ensures i <= |s| && TrimStart(whitespace, s) == s[i..]
    ensures (forall k :: 0 <= k < i ==> whitespace(s[k])) && (i < |s| ==> !whitespace(s[i]))
  {
    if s != [] && whitespace(s[0]) {
      var j := TrimStartSplits(whitespace, s[1..]);
      i := j + 1;
      assert s[1..][j..] == s[i..];
      assert forall k :: 0 < k < |s| ==> s[k] == s[1..][k - 1];
    } else {
      i := 0;
    }
  }

  lemma {:induction false} TrimEndSplits(whitespace: char -> bool, s: string) returns (j: nat)
    ensures j <= |s| && TrimEnd(whitespace, s) == s[..j]
    ensures (forall k :: j <= k < |s| ==> whitespace(s[k])) && (j > 0 ==> !whitespace(s[j - 1]))
  {
    if s != [] && whitespace(s[|s| - 1]) {
      j := TrimEndSplits(whitespace, s[..|s| - 1]);
      assert s[..|s| - 1][..j] == s[..j];
      assert forall k :: 0 <= k < |s| - 1 ==> s[k] == s[..|s| - 1][k];
    } else {
      j := |s|;
    }
  }

  lemma TrimFindsCore(whitespace: char -> bool, raw: string) returns (i: nat, j: nat)
    ensures IsCore(whitespace, raw, Trim(whitespace, raw), i, j)
  {
    i := TrimStartSplits(whitespace, raw);
    var n := TrimEndSplits(whitespace, raw[i..]);
    j := i + n;
    assert raw[i..][..n] == raw[i..j];
    forall k | j <= k < |raw| ensures whitespace(raw[k]) {
      assert raw[k] == raw[i..][k - i];
    }
  }

  /** There is only one such part. */
  lemma CoreIsUnique(whitespace: char -> bool, raw: string, s: string, i: nat, j: nat, t: string, k: nat, l: nat)
    requires IsCore(whitespace, raw, s, i, j) && IsCore(whitespace, raw, t, k, l)
    ensures s == t
  {
    assert s != [] ==> s[0] == raw[i] && s[|s| - 1] == raw[j - 1];
    assert t != [] ==> t[0] == raw[k] && t[|t| - 1] == raw[l - 1];
  }

  ghost predicate HasControl(u: Unicode, term: string) {
    exists i :: 0 <= i < |term| && u.control(term[i])
  }

  /** What each entry is, told from its part between the surrounding whitespace. */
  lemma JudgeIsExact(u: Unicode, raw: string, term: string, i: nat, j: nat)
    requires IsCore(u.whitespace, raw, term, i, j)
    ensures Judge(u, raw) == Blank <==> term == []
    ensures Judge(u, raw) == Bad(ControlCharacter) <==> HasControl(u, term)
    ensures Judge(u, raw) == Bad(TermTooLong) <==> !HasControl(u, term) && |term| > 64
    ensures Judge(u, raw) == Bad(TermTooShort) <==> !HasControl(u, term) && |term| == 1
    ensures Judge(u, raw).Good? <==> !HasControl(u, term) && 2 <= |term| <= 64
    ensures Judge(u, raw).Good? ==>
      |Judge(u, raw).term| == |term| && forall k :: 0 <= k < |term| ==> Judge(u, raw).term[k] == u.fold(term[k])
  {
    var k, l := TrimFindsCore(u.whitespace, raw);
    CoreIsUnique(u.whitespace, raw, term, i, j, Trim(u.whitespace, raw), k, l);
  }

  function Judging(u: Unicode): Judgement {
    raw => Judge(u, raw)
  }

  // ---------------------------------------------------------------------------------------
  // Building the list
  // ---------------------------------------------------------------------------------------

  function Codes(s: string): (r: seq<int>)
    ensures |r| == |s|
    ensures forall i :: 0 <= i < |s| ==> r[i] == s[i] as int
  {
    seq(|s|, i requires 0 <= i < |s| => s[i] as int)
  }

  /** Longest first, then by code point: the comparison handed to `sort_by`. */
  predicate TermLeq(a: string, b: string) {
    |a| > |b| || (|a| == |b| && Ordering.LexLeq(Codes(a), Codes(b)))
  }

  /** Longer terms first, and among equally long ones by code points. */
  lemma TermLeqMeaning(a: string, b: string)
    ensures TermLeq(a, b) <==> |a| > |b| || (|a| == |b| && (Codes(a) == Codes(b) || Ordering.Before(Codes(a), Codes(b))))
  {
    Ordering.LexMeaning(Codes(a), Codes(b));
  }

  lemma TermOrder()
    ensures Ordering.TotalPreorder(TermLeq)
    ensures forall a, b :: TermLeq(a, b) && TermLeq(b, a) ==> a == b
  {
    Ordering.LexIsTotalPreorder();
    forall a, b | TermLeq(a, b) && TermLeq(b, a) ensures a == b {
      assert Codes(a) == Codes(b);
      forall i | 0 <= i < |a| ensures a[i] == b[i] {
        assert Codes(a)[i] == Codes(b)[i];
      }
    }
  }

  /** The loop of `from_terms`, started with the terms already kept. */
  function Scan(judge: Judgement, terms: seq<string>, kept: seq<string>): Result<seq<string>, FilterError> {
    if terms == [] then Ok(kept) else
    match judge(terms[0])
    case Blank => Scan(judge, terms[1..], kept)
    case Bad(e) => Err(Entry(e))
    case Good(t) =>
      var more := Keep(kept, t);
      if |more| > MAX_FILTER_TERMS then Err(TooManyTerms) else Scan(judge, terms[1..], more)
  }

  function Keep(kept: seq<string>, t: string): seq<string> {
    if t in kept then kept else kept + [t]
  }

  function Build(judge: Judgement, terms: seq<string>): Result<seq<string>, FilterError> {
    match Scan(judge, terms, [])
    case Err(e) => Err(e)
    case Ok(kept) => if kept == [] then Err(EmptyList) else Ok(Ordering.Sort(TermLeq, kept))
  }

  /** `ContentFilter::from_terms`. */
  method FromTerms(u: Unicode, terms: seq<string>) returns (r: Result<seq<string>, FilterError>)
    ensures r == Build(Judging(u), terms)
  {
    var judge := Judging(u);
    var folded: seq<string> := [];
    for i := 0 to |terms|
      invariant Scan(judge, terms, []) == Scan(judge, terms[i..], folded)
    {
      assert terms[i..][1..] == terms[i + 1..];
      var verdict := judge(terms[i]);
      if verdict.Blank? {
        continue;
      }
      if verdict.Bad? {
        return Err(Entry(verdict.error));
      }
      if verdict.term !in folded {
        folded := folded + [verdict.term];
      }
      if |folded| > MAX_FILTER_TERMS {
        return Err(TooManyTerms);
      }
    }
    if folded == [] {
      return Err(EmptyList);
    }
    r := Ok(Ordering.Sort(TermLeq, folded));
  }

  function Members(s: seq<string>): set<string> {
    set x | x in s
  }

  /** The folded terms a list contributes. */
  function GoodTerms(judge: Judgement, terms: seq<string>): set<string> {
    set x | x in terms && judge(x).Good? :: judge(x).term
  }

  function BadEntries(judge: Judgement, terms: seq<string>): set<FilterError> {
    set x | x in terms && judge(x).Bad? :: Entry(judge(x).error)
  }

  /** Every kind of defect present somewhere in the list. */
  function Defects(judge: Judgement, terms: seq<string>): set<FilterError> {
    BadEntries(judge, terms)
    + (if |GoodTerms(judge, terms)| > MAX_FILTER_TERMS then {TooManyTerms} else {})
  }

  ghost predicate NoDuplicates(s: seq<string>) {
    forall i, j :: 0 <= i < j < |s| ==> s[i] != s[j]
  }

  lemma {:induction false} NoDuplicatesSize(s: seq<string>)
    requires NoDuplicates(s)
    ensures |Members(s)| == |s|
  {
    if s != [] {
      NoDuplicatesSize(s[1..]);
      assert Members(s) == {s[0]} + Members(s[1..]);
    }
  }

  lemma SubsetSize(a: set<string>, b: set<string>)
    requires a <= b
    ensures |a| <= |b|
  {
    assert b == a + (b - a);
  }

  lemma GoodTermsTail(judge: Judgement, terms: seq<string>)
    requires terms != []
    ensures GoodTerms(judge, terms) == GoodTerms(judge, terms[1..])
              + (match judge(terms[0]) case Good(t) => {t} case _ => {})
    ensures BadEntries(judge, terms) == BadEntries(judge, terms[1..])
              + (match judge(terms[0]) case Bad(e) => {Entry(e)} case _ => {})
  {
    assert terms == [terms[0]] + terms[1..];
  }

  lemma KeepMeaning(kept: seq<string>, t: string)
    requires NoDuplicates(kept)
    ensures NoDuplicates(Keep(kept, t)) && Members(Keep(kept, t)) == Members(kept) + {t}
  {
  }

  /** A scan's outcome against the terms `all` it should keep and the errors `bad` it met. */
  ghost predicate ScanOutcome(r: Result<seq<string>, FilterError>, all: set<string>, bad: set<FilterError>) {
    match r
    case Ok(v) => bad == {} && |all| <= MAX_FILTER_TERMS && NoDuplicates(v) && Members(v) == all
    case Err(TooManyTerms) => |all| > MAX_FILTER_TERMS
    case Err(e) => e in bad
  }

  /**
   What the loop keeps and when it stops early: it succeeds exactly on a list without bad
   entries whose distinct terms fit, keeping each once, and otherwise reports a defect that
   is really there.
   */
  lemma {:induction false} ScanMeaning(judge: Judgement, terms: seq<string>, kept: seq<string>)
    requires NoDuplicates(kept) && |kept| <= MAX_FILTER_TERMS
    ensures ScanOutcome(Scan(judge, terms, kept), Members(kept) + GoodTerms(judge, terms), BadEntries(judge, terms))
    decreases |terms|, 1
  {
    NoDuplicatesSize(kept);
    if terms == [] {
      assert Members(kept) + GoodTerms(judge, terms) == Members(kept);
    } else {
      GoodTermsTail(judge, terms);
      match judge(terms[0]) {
        case Blank =>
          ScanMeaning(judge, terms[1..], kept);
        case Bad(e) =>
        case Good(t) =>
          ScanGood(judge, terms, kept, t);
      }
    }
  }

  lemma {:induction false} ScanGood(judge: Judgement, terms: seq<string>, kept: seq<string>, t: string)
    requires NoDuplicates(kept) && |kept| <= MAX_FILTER_TERMS && terms != [] && judge(terms[0]) == Good(t)
    ensures ScanOutcome(Scan(judge, terms, kept), Members(kept) + GoodTerms(judge, terms), BadEntries(judge, terms))
    decreases |terms|, 0
  {
    GoodTermsTail(judge, terms);
    KeepGood(judge, terms, kept, t);
    if |Keep(kept, t)| <= MAX_FILTER_TERMS {
      ScanMeaning(judge, terms[1..], Keep(kept, t));
    }
  }

  lemma KeepGood(judge: Judgement, terms: seq<string>, kept: seq<string>, t: string)
    requires NoDuplicates(kept) && terms != [] && judge(terms[0]) == Good(t)
    ensures var more, all := Keep(kept, t), Members(kept) + GoodTerms(judge, terms);
      && NoDuplicates(more)
      && Members(more) + GoodTerms(judge, terms[1..]) == all
      && |more| <= |all|
  {
    var more := Keep(kept, t);
    GoodTermsTail(judge, terms);
    KeepMeaning(kept, t);
    NoDuplicatesSize(more);
    SubsetSize(Members(more), Members(kept) + GoodTerms(judge, terms));
  }

  /**
   `from_terms` decided without its loop: it fails on a defect that is present, reports an
   empty list exactly when there is neither defect nor term, and otherwise stores each folded
   term once, longest first.
   */
  lemma BuildMeaning(judge: Judgement, terms: seq<string>)
    ensures match Build(judge, terms)
            case Ok(v) =>
              && Defects(judge, terms) == {} && GoodTerms(judge, terms) != {}
              && Members(v) == GoodTerms(judge, terms) && NoDuplicates(v)
              && Ordering.Sorted(TermLeq, v)
            case Err(EmptyList) => Defects(judge, terms) == {} && GoodTerms(judge, terms) == {}
            case Err(e) => e in Defects(judge, terms)
  {
    ScanMeaning(judge, terms, []);
    assert Members([]) + GoodTerms(judge, terms) == GoodTerms(judge, terms);
    match Scan(judge, terms, []) {
      case Err(e) =>
      case Ok(kept) =>
        if kept == [] {
          assert Members(kept) == {};
        } else {
          assert kept[0] in Members(kept);
          TermOrder();
          Ordering.SortIsSortedPermutation(TermLeq, kept);
          var v := Ordering.Sort(TermLeq, kept);
          assert Members(v) == Members(kept);
          PermutationKeepsDistinctness(kept, v);
        }
    }
  }

  lemma PermutationKeepsDistinctness(s: seq<string>, t: seq<string>)
    requires NoDuplicates(s) && multiset(s) == multiset(t)
    ensures NoDuplicates(t)
  {
    forall i, j | 0 <= i < j < |t| ensures t[i] != t[j] {
      if t[i] == t[j] {
        assert t == t[..i] + [t[i]] + t[i + 1..j] + [t[j]] + t[j + 1..];
        assert multiset(t)[t[i]] >= 2;
        MultiplicityAtMostOne(s, t[i]);
      }
    }
  }

  lemma {:induction false} MultiplicityAtMostOne(s: seq<string>, x: string)
    requires NoDuplicates(s)
    ensures multiset(s)[x] <= 1
  {
    if s != [] {
      assert s == [s[0]] + s[1..];
      MultiplicityAtMostOne(s[1..], x);
      if x == s[0] {
        assert x !in s[1..];
      }
    }
  }

  ghost predicate SameEntries(s: seq<string>, t: seq<string>) {
    forall x :: x in s <==> x in t
  }

  lemma SameEntriesSameMeaning(judge: Judgement, s: seq<string>, t: seq<string>)
    requires SameEntries(s, t)
    ensures GoodTerms(judge, s) == GoodTerms(judge, t) && Defects(judge, s) == Defects(judge, t)
  {
    assert BadEntries(judge, s) == BadEntries(judge, t);
  }

  lemma SameMembersSameMultiset(s: seq<string>, t: seq<string>)
    requires NoDuplicates(s) && NoDuplicates(t) && Members(s) == Members(t)
    ensures multiset(s) == multiset(t)
  {
    forall x ensures multiset(s)[x] == multiset(t)[x] {
      MultiplicityAtMostOne(s, x);
      MultiplicityAtMostOne(t, x);
      assert x in s <==> x in Members(s);
      assert x in t <==> x in Members(t);
    }
  }

  /**
   Success never depends on the order or repetition of the entries, and neither does the
   stored vector.
   */
  lemma BuildSuccessIgnoresOrder(judge: Judgement, s: seq<string>, t: seq<string>)
    requires SameEntries(s, t)
    ensures Build(judge, s).Ok? <==> Build(judge, t).Ok?
    ensures Build(judge, s).Ok? ==> Build(judge, s) == Build(judge, t)
  {
    BuildMeaning(judge, s);
    BuildMeaning(judge, t);
    SameEntriesSameMeaning(judge, s, t);
    if Build(judge, s).Ok? {
      var v, w := Build(judge, s).value, Build(judge, t).value;
      SameMembersSameMultiset(v, w);
      TermOrder();
      Ordering.SortedPermutationIsUnique(TermLeq, v, w);
    }
  }

  lemma {:induction false} ScanStopsInPrefix(judge: Judgement, s: seq<string>, t: seq<string>, kept: seq<string>)
    requires Scan(judge, s, kept).Err?
    ensures Scan(judge, s + t, kept) == Scan(judge, s, kept)
  {
    assert (s + t)[1..] == s[1..] + t;
    match judge(s[0]) {
      case Blank => ScanStopsInPrefix(judge, s[1..], t, kept);
      case Bad(e) =>
      case Good(x) =>
        if |Keep(kept, x)| <= MAX_FILTER_TERMS {
          ScanStopsInPrefix(judge, s[1..], t, Keep(kept, x));
        }
    }
  }

  function {:induction false} OnlyGood(judge: Judgement, s: seq<string>): (r: seq<string>)
    ensures forall x :: x in r <==> x in s && judge(x).Good?
  {
    if s == [] then []
    else if judge(s[0]).Good? then [s[0]] + OnlyGood(judge, s[1..])
    else OnlyGood(judge, s[1..])
  }

  /** Any defect present can be made the reported one by moving its cause to the front. */
  lemma AnyDefectCanBeReported(judge: Judgement, s: seq<string>, e: FilterError) returns (t: seq<string>)
    requires e in Defects(judge, s)
    ensures SameEntries(s, t) && Build(judge, t) == Err(e)
  {
    if e in BadEntries(judge, s) {
      var x :| x in s && judge(x).Bad? && Entry(judge(x).error) == e;
      t := [x] + s;
    } else {
      var good := OnlyGood(judge, s);
      t := good + s;
      assert GoodTerms(judge, good) == GoodTerms(judge, s);
      assert Members([]) + GoodTerms(judge, good) == GoodTerms(judge, good);
      ScanMeaning(judge, good, []);
      assert BadEntries(judge, good) == {};
      ScanStopsInPrefix(judge, good, s, []);
    }
  }

  /**
   The error kind, unlike success, can depend on the order of the entries: the outcome is the
   same for every reordering and repetition of a list if and only if at most one kind of defect
   occurs in it.
   */
  lemma BuildIgnoresOrderExactly(judge: Judgement, s: seq<string>)
    ensures (forall t :: SameEntries(s, t) ==> Build(judge, t) == Build(judge, s))
       <==> (forall e, f :: e in Defects(judge, s) && f in Defects(judge, s) ==> e == f)
  {
    if e, f :| e in Defects(judge, s) && f in Defects(judge, s) && e != f {
      var t := AnyDefectCanBeReported(judge, s, e);
      var w := AnyDefectCanBeReported(judge, s, f);
      assert Build(judge, t) != Build(judge, w);
    } else {
      forall t | SameEntries(s, t) ensures Build(judge, t) == Build(judge, s) {
        SameEntriesSameMeaning(judge, s, t);
        BuildMeaning(judge, s);
        BuildMeaning(judge, t);
        BuildSuccessIgnoresOrder(judge, s, t);
      }
    }
  }

  /** Unicode's control characters and white space, and its lower-case fold on ASCII. */
  const ASCII_FOLD: Unicode := Unicode(
    c => if 'A' <= c <= 'Z' then (c as int + 32) as char else c,
    c => c < ' ' || 127 <= c as int <= 159,
    c => 9 <= c as int <= 13
      || c as int in {0x20, 0x85, 0xA0, 0x1680, 0x2028, 0x2029, 0x202F, 0x205F, 0x3000} || 0x2000 <= c as int <= 0x200A)

  /** A lone letter and a word with the bell character in it: either order, different errors. */
  lemma ErrorKindDependsOnOrder()
    ensures var word := ['a', 7 as char, 'b'];
      && Build(Judging(ASCII_FOLD), ["x", word]) == Err(Entry(TermTooShort))
      && Build(Judging(ASCII_FOLD), [word, "x"]) == Err(Entry(ControlCharacter))
  {
    var word := ['a', 7 as char, 'b'];
    assert ASCII_FOLD.control(word[1]);
    JudgeIsExact(ASCII_FOLD, "x", "x", 0, 1);
    JudgeIsExact(ASCII_FOLD, word, word, 0, 3);
  }
}
