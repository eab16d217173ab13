/**
 Escaping by successive replacements: the link label of a topic announcement and the HTML text and
 attribute escapers. Each is a list of rules applied one after the other to the whole text; the question
 is when that is the same as one pass over the characters, and whether it can be undone.
 */
module Escaping {
  import opened Common

  /** Every `what` is replaced by `code`. */
  datatype Rule = Rule(what: char, code: string)

  function Replace(rule: Rule, s: string): string {
    if s == [] then []
    else (if s[0] == rule.what then rule.code else [s[0]]) + Replace(rule, s[1..])
  }

  /** The successive replacements. */
  function Successive(rules: seq<Rule>, s: string): string {
    if rules == [] then s else Successive(rules[1..], Replace(rules[0], s))
  }

  /** What the first rule for `c` makes of it; `c` itself without one. */
  function Code(rules: seq<Rule>, c: char): string {
    if rules == [] then [c] else if rules[0].what == c then rules[0].code else Code(rules[1..], c)
  }

  /** One pass over the characters. */
  function OnePass(rules: seq<Rule>, s: string): string {
    if s == [] then [] else Code(rules, s[0]) + OnePass(rules, s[1..])
  }

  // ---------------------------------------------------------------------------------------
  // When successive replacement is one pass
  // ---------------------------------------------------------------------------------------

  /** No rule's replacement contains a character that a later rule replaces. */
  ghost predicate Ordered(rules: seq<Rule>) {
    forall i, j :: 0 <= i < j < |rules| ==> rules[j].what !in rules[i].code
  }

  ghost predicate DistinctRules(rules: seq<Rule>) {
    forall i, j :: 0 <= i < j < |rules| ==> rules[i].what != rules[j].what
  }

  /** Replacements are longer than what they replace. */
  ghost predicate Lengthening(rules: seq<Rule>) {
    forall i :: 0 <= i < |rules| ==> |rules[i].code| >= 2
  }

  lemma {:induction false} ReplaceConcat(rule: Rule, s: string, t: string)
    ensures Replace(rule, s + t) == Replace(rule, s) + Replace(rule, t)
  {
    if s == [] {
      assert s + t == t;
    } else {
      assert (s + t)[0] == s[0] && (s + t)[1..] == s[1..] + t;
      ReplaceConcat(rule, s[1..], t);
    }
  }

  lemma {:induction false} SuccessiveConcat(rules: seq<Rule>, s: string, t: string)
    ensures Successive(rules, s + t) == Successive(rules, s) + Successive(rules, t)
  {
    if rules != [] {
      ReplaceConcat(rules[0], s, t);
      SuccessiveConcat(rules[1..], Replace(rules[0], s), Replace(rules[0], t));
    }
  }

  lemma {:induction false} SuccessiveOfNothing(rules: seq<Rule>)
    ensures Successive(rules, []) == []
  {
    if rules != [] {
      SuccessiveOfNothing(rules[1..]);
    }
  }

  /** Successive replacement acts on each character for itself. */
  lemma {:induction false} SuccessiveSplits(rules: seq<Rule>, s: string)
    requires s != []
    ensures Successive(rules, s) == Successive(rules, [s[0]]) + Successive(rules, s[1..])
  {
    assert s == [s[0]] + s[1..];
    SuccessiveConcat(rules, [s[0]], s[1..]);
  }

  ghost predicate Untouched(rules: seq<Rule>, s: string) {
    forall i :: 0 <= i < |rules| ==> rules[i].what !in s
  }

  lemma {:induction false} ReplaceKeeps(rule: Rule, s: string)
    requires rule.what !in s
    ensures Replace(rule, s) == s
  {
    if s != [] {
      ReplaceKeeps(rule, s[1..]);
      assert s == [s[0]] + s[1..];
    }
  }

  lemma {:induction false} SuccessiveKeeps(rules: seq<Rule>, s: string)
    requires Untouched(rules, s)
    ensures Successive(rules, s) == s
  {
    if rules != [] {
      ReplaceKeeps(rules[0], s);
      SuccessiveKeeps(rules[1..], s);
    }
  }

  lemma {:induction false} SuccessiveOnOne(rules: seq<Rule>, c: char)
    requires Ordered(rules)
    ensures Successive(rules, [c]) == Code(rules, c)
  {
    if rules != [] {
      assert [c][1..] == [];
      if rules[0].what == c {
        assert Replace(rules[0], [c]) == rules[0].code;
        SuccessiveKeeps(rules[1..], rules[0].code);
      } else {
        assert Replace(rules[0], [c]) == [c];
        SuccessiveOnOne(rules[1..], c);
      }
    }
  }

  lemma {:induction false} OrderedRulesAreOnePass(rules: seq<Rule>, s: string)
    requires Ordered(rules)
    ensures Successive(rules, s) == OnePass(rules, s)
  {
    if s == [] {
      SuccessiveOfNothing(rules);
    } else {
      SuccessiveSplits(rules, s);
      SuccessiveOnOne(rules, s[0]);
      OrderedRulesAreOnePass(rules, s[1..]);
    }
  }

  lemma {:induction false} ReplaceGrows(rule: Rule, s: string)
    requires |rule.code| >= 2
    ensures |Replace(rule, s)| >= |s| && (rule.what in s ==> |Replace(rule, s)| > |s|)
  {
    if s != [] {
      ReplaceGrows(rule, s[1..]);
    }
  }

  lemma {:induction false} SuccessiveGrows(rules: seq<Rule>, s: string)
    requires Lengthening(rules)
    ensures |Successive(rules, s)| >= |s| && (!Untouched(rules, s) ==> |Successive(rules, s)| > |s|)
  {
    if rules != [] {
      ReplaceGrows(rules[0], s);
      SuccessiveGrows(rules[1..], Replace(rules[0], s));
      if rules[0].what !in s {
        ReplaceKeeps(rules[0], s);
      }
    }
  }

  /** Rules before the one for `c` leave it alone. */
  lemma {:induction false} SuccessiveReaches(rules: seq<Rule>, i: nat)
    requires DistinctRules(rules) && i < |rules|
    ensures Successive(rules, [rules[i].what]) == Successive(rules[i + 1..], rules[i].code)
    ensures Code(rules, rules[i].what) == rules[i].code
  {
    var c := rules[i].what;
    assert [c][1..] == [];
    if i == 0 {
      assert Replace(rules[0], [c]) == rules[0].code;
    } else {
      assert Replace(rules[0], [c]) == [c];
      SuccessiveReaches(rules[1..], i - 1);
      assert rules[1..][i - 1] == rules[i] && rules[1..][i..] == rules[i + 1..];
    }
  }

  /**
   For escapes, which always lengthen, successive replacement is one pass on every text if and only if
   no replacement contains a character that a later rule replaces.
   */
  lemma OnePassExactly(rules: seq<Rule>)
    requires DistinctRules(rules) && Lengthening(rules)
    ensures (forall s :: Successive(rules, s) == OnePass(rules, s)) <==> Ordered(rules)
  {
    if Ordered(rules) {
      forall s ensures Successive(rules, s) == OnePass(rules, s) {
        OrderedRulesAreOnePass(rules, s);
      }
    } else {
      var i, j :| 0 <= i < j < |rules| && rules[j].what in rules[i].code;
      DisorderShows(rules, i, j);
    }
  }

  lemma {:induction false} DisorderShows(rules: seq<Rule>, i: nat, j: nat)
    requires DistinctRules(rules) && Lengthening(rules) && i < j < |rules| && rules[j].what in rules[i].code
    ensures Successive(rules, [rules[i].what]) != OnePass(rules, [rules[i].what])
  {
    SuccessiveReaches(rules, i);
    assert [rules[i].what][1..] == [];
    assert OnePass(rules, [rules[i].what]) == rules[i].code;
    assert rules[i + 1..][j - i - 1] == rules[j];
    SuccessiveGrows(rules[i + 1..], rules[i].code);
  }

  // ---------------------------------------------------------------------------------------
  // Undoing it
  // ---------------------------------------------------------------------------------------

  predicate Special(rules: seq<Rule>, c: char) {
    exists i :: 0 <= i < |rules| && rules[i].what == c
  }

  /** The first rule whose replacement stands at the front of `s`. */
  function RuleAt(rules: seq<Rule>, s: string): Option<Rule> {
    if rules == [] then None
    else if rules[0].code <= s then Some(rules[0])
    else RuleAt(rules[1..], s)
  }

  function Cons(c: char, rest: Option<string>): Option<string> {
    if rest.None? then None else Some([c] + rest.value)
  }

  function Unescape(rules: seq<Rule>, s: string): Option<string>
    decreases |s|
  {
    if s == [] then Some([])
    else
      var rule := RuleAt(rules, s);
      var n := if rule.Some? then |rule.value.code| else 1;
      if (rule.None? && Special(rules, s[0])) || n == 0 || n > |s| then None
      else
        Cons(if rule.Some? then rule.value.what else s[0], Unescape(rules, s[n..]))
  }

  /** Replacements begin with a replaced character, and none begins another. */
  ghost predicate Decodable(rules: seq<Rule>) {
    && (forall i :: 0 <= i < |rules| ==> rules[i].code != [] && Special(rules, rules[i].code[0]))
    && (forall i, j :: 0 <= i < |rules| && 0 <= j < |rules| && i != j ==> !(rules[i].code <= rules[j].code))
  }

  /** The place of the rule that decides the code of `c`; past the end if there is none. */
  lemma {:induction false} CodeMeaning(rules: seq<Rule>, c: char) returns (i: nat)
    ensures i <= |rules| && (i < |rules| <==> Special(rules, c))
    ensures if i < |rules| then rules[i].what == c && Code(rules, c) == rules[i].code else Code(rules, c) == [c]
  {
    if rules == [] || rules[0].what == c {
      return 0;
    }
    i := CodeMeaning(rules[1..], c);
    i := i + 1;
    if k :| 0 <= k < |rules| && rules[k].what == c {
      assert rules[1..][k - 1].what == c;
    }
  }

  lemma {:induction false} RuleAtFinds(rules: seq<Rule>, s: string, i: nat)
    requires i < |rules| && rules[i].code <= s
    requires forall j :: 0 <= j < |rules| && j != i ==> !(rules[j].code <= s)
    ensures RuleAt(rules, s) == Some(rules[i])
  {
    if i > 0 {
      RuleAtFinds(rules[1..], s, i - 1);
    }
  }

  lemma {:induction false} RuleAtMisses(rules: seq<Rule>, s: string)
    requires forall j :: 0 <= j < |rules| ==> !(rules[j].code <= s)
    ensures RuleAt(rules, s) == None
  {
    if rules != [] {
      RuleAtMisses(rules[1..], s);
    }
  }

  lemma PrefixesNest(a: string, b: string, x: string)
    requires a <= b + x
    ensures a <= b || b <= a
  {
    if |a| <= |b| {
      assert a == (b + x)[..|a|] == b[..|a|];
    } else {
      assert b == a[..|b|];
    }
  }

  /** In front of any text, the code of a replaced character is found and no other is. */
  lemma {:induction false} SpecialFront(rules: seq<Rule>, i: nat, x: string)
    requires Decodable(rules) && i < |rules|
    ensures RuleAt(rules, rules[i].code + x) == Some(rules[i])
  {
    var s := rules[i].code + x;
    forall j | 0 <= j < |rules| && j != i ensures !(rules[j].code <= s) {
      if rules[j].code <= s {
        PrefixesNest(rules[j].code, rules[i].code, x);
      }
    }
    RuleAtFinds(rules, s, i);
  }

  lemma {:induction false} PlainFront(rules: seq<Rule>, c: char, x: string)
    requires Decodable(rules) && !Special(rules, c)
    ensures RuleAt(rules, [c] + x) == None
  {
    var s := [c] + x;
    assert forall j :: 0 <= j < |rules| ==> rules[j].code[0] != s[0];
    RuleAtMisses(rules, s);
  }

  lemma {:induction false} UnescapeSpecial(rules: seq<Rule>, i: nat, x: string)
    requires Decodable(rules) && i < |rules|
    ensures Unescape(rules, rules[i].code + x) == Cons(rules[i].what, Unescape(rules, x))
  {
    SpecialFront(rules, i, x);
    UnescapeStep(rules, rules[i], rules[i].code + x);
    assert (rules[i].code + x)[|rules[i].code|..] == x;
  }

  lemma {:induction false} UnescapeStep(rules: seq<Rule>, rule: Rule, s: string)
    requires s != [] && RuleAt(rules, s) == Some(rule) && 0 < |rule.code| <= |s|
    ensures Unescape(rules, s) == Cons(rule.what, Unescape(rules, s[|rule.code|..]))
  {
  }

  lemma {:induction false} UnescapePlain(rules: seq<Rule>, c: char, x: string)
    requires Decodable(rules) && !Special(rules, c)
    ensures Unescape(rules, [c] + x) == Cons(c, Unescape(rules, x))
  {
    PlainFront(rules, c, x);
    assert ([c] + x)[0] == c && ([c] + x)[1..] == x;
  }

  /** The front of an escaped text is read back. */
  lemma {:induction false} UnescapeFront(rules: seq<Rule>, c: char, x: string)
    requires Decodable(rules)
    ensures Unescape(rules, Code(rules, c) + x) == Cons(c, Unescape(rules, x))
  {
    var i := CodeMeaning(rules, c);
    if i < |rules| {
      UnescapeSpecial(rules, i, x);
    } else {
      UnescapePlain(rules, c, x);
    }
  }

  /** Every text is read back from its escaped form. */
  lemma {:induction false} EscapingRoundTrip(rules: seq<Rule>, s: string)
    requires Decodable(rules)
    ensures Unescape(rules, OnePass(rules, s)) == Some(s)
  {
    if s != [] {
      var rest := OnePass(rules, s[1..]);
      assert OnePass(rules, s) == Code(rules, s[0]) + rest;
      EscapingRoundTrip(rules, s[1..]);
      calc {
        Unescape(rules, Code(rules, s[0]) + rest);
        { UnescapeFront(rules, s[0], rest); }
        Cons(s[0], Some(s[1..]));
        { assert s == [s[0]] + s[1..]; }
        Some(s);
      }
    }
  }

  // ---------------------------------------------------------------------------------------
  // The three escapers
  // ---------------------------------------------------------------------------------------

  const LABEL: seq<Rule> := [
    Rule('\\', "\\\\"), Rule('[', "\\["), Rule(']', "\\]"), Rule('(', "\\("), Rule(')', "\\)")
  ]

  const HTML: seq<Rule> := [Rule('&', "&amp;"), Rule('<', "&lt;"), Rule('>', "&gt;")]

  const ATTRIBUTE: seq<Rule> := HTML + [Rule('"', "&quot;"), Rule('\'', "&#39;")]

  ghost predicate WellMade(rules: seq<Rule>) {
    Ordered(rules) && DistinctRules(rules) && Lengthening(rules) && Decodable(rules)
  }

  lemma LabelIsWellMade()
    ensures WellMade(LABEL)
  {
    assert forall i :: 0 <= i < |LABEL| ==> LABEL[i].code == ['\\', LABEL[i].what];
    assert forall i :: 0 <= i < |LABEL| ==> LABEL[i].code[1] == LABEL[i].what;
    assert DistinctRules(LABEL);
    assert LABEL[0].what == '\\';
  }

  /** What entity codes are made of. */
  predicate EntityChar(c: char) {
    c == '&' || c == ';' || c == '#' || 'a' <= c <= 'z' || '0' <= c <= '9'
  }

  /** Entities: codes start with the first rule's character, are told apart by their second. */
  ghost predicate Entities(rules: seq<Rule>) {
    && rules != [] && rules[0].what == '&'
    && (forall i :: 0 <= i < |rules| ==> |rules[i].code| >= 2 && rules[i].code[0] == '&')
    && (forall i, k :: 0 <= i < |rules| && 0 <= k < |rules[i].code| ==> EntityChar(rules[i].code[k]))
    && (forall i :: 0 < i < |rules| ==> !EntityChar(rules[i].what))
    && (forall i, j :: 0 <= i < j < |rules| ==> rules[i].code[1] != rules[j].code[1])
    && DistinctRules(rules)
  }

  lemma EntitiesAreWellMade(rules: seq<Rule>)
    requires Entities(rules)
    ensures WellMade(rules)
  {
  }

  lemma HtmlIsWellMade()
    ensures WellMade(HTML)
  {
    EntitiesAreWellMade(HTML);
  }

  lemma AttributeIsWellMade()
    ensures WellMade(ATTRIBUTE)
  {
    EntitiesAreWellMade(ATTRIBUTE);
  }

  function EscapeHtml(s: string): string {
    Replace(HTML[2], Replace(HTML[1], Replace(HTML[0], s)))
  }

  function EscapeAttribute(s: string): string {
    Replace(ATTRIBUTE[4], Replace(ATTRIBUTE[3], EscapeHtml(s)))
  }

  /** Both chains of replacements are one pass, and their decoders undo them. */
  /** The character references of HTML that are used here. */
  function Reference(text: string): Option<char> {
    match text
    case "&amp;" => Some('&')
    case "&lt;" => Some('<')
    case "&gt;" => Some('>')
    case "&quot;" => Some('"')
    case "&#39;" => Some('\'')
    case _ => None
  }

  /** Each character is replaced by the reference that browsers read as that character, and exactly these are. */
  lemma RulesAreReferences()
    ensures forall i :: 0 <= i < |ATTRIBUTE| ==> Reference(ATTRIBUTE[i].code) == Some(ATTRIBUTE[i].what)
    ensures forall i :: 0 <= i < |HTML| ==> ATTRIBUTE[i] == HTML[i]
    ensures |HTML| == 3 && |ATTRIBUTE| == 5
  {
  }

  lemma HtmlEscapersAreExact(s: string)
    ensures EscapeHtml(s) == OnePass(HTML, s) && Unescape(HTML, EscapeHtml(s)) == Some(s)
    ensures EscapeAttribute(s) == OnePass(ATTRIBUTE, s) && Unescape(ATTRIBUTE, EscapeAttribute(s)) == Some(s)
  {
    HtmlIsWellMade();
    AttributeIsWellMade();
    HtmlIsSuccessive(s);
    AttributeIsSuccessive(s);
    OrderedRulesAreOnePass(HTML, s);
    OrderedRulesAreOnePass(ATTRIBUTE, s);
    EscapingRoundTrip(HTML, s);
    EscapingRoundTrip(ATTRIBUTE, s);
  }

  lemma HtmlIsSuccessive(s: string)
    ensures EscapeHtml(s) == Successive(HTML, s)
  {
    SuccessiveAppend([HTML[0]], [HTML[1], HTML[2]], s);
    SuccessiveAppend([HTML[1]], [HTML[2]], Replace(HTML[0], s));
    assert HTML == [HTML[0]] + [HTML[1], HTML[2]] && [HTML[1], HTML[2]] == [HTML[1]] + [HTML[2]];
    SuccessiveOfOne(HTML[0], s);
    SuccessiveOfOne(HTML[1], Replace(HTML[0], s));
    SuccessiveOfOne(HTML[2], Replace(HTML[1], Replace(HTML[0], s)));
  }

  lemma SuccessiveOfOne(rule: Rule, s: string)
    ensures Successive([rule], s) == Replace(rule, s)
  {
    assert [rule][1..] == [];
  }

  lemma {:induction false} SuccessiveAppend(a: seq<Rule>, b: seq<Rule>, s: string)
    ensures Successive(a + b, s) == Successive(b, Successive(a, s))
  {
    if a == [] {
      assert a + b == b;
    } else {
      assert (a + b)[0] == a[0] && (a + b)[1..] == a[1..] + b;
      SuccessiveAppend(a[1..], b, Replace(a[0], s));
    }
  }

  lemma AttributeIsSuccessive(s: string)
    ensures EscapeAttribute(s) == Successive(ATTRIBUTE, s)
  {
    var more := [ATTRIBUTE[3], ATTRIBUTE[4]];
    assert ATTRIBUTE == HTML + more && more == [ATTRIBUTE[3]] + [ATTRIBUTE[4]];
    SuccessiveAppend(HTML, more, s);
    HtmlIsSuccessive(s);
    SuccessiveAppend([ATTRIBUTE[3]], [ATTRIBUTE[4]], EscapeHtml(s));
    SuccessiveOfOne(ATTRIBUTE[3], EscapeHtml(s));
    SuccessiveOfOne(ATTRIBUTE[4], Replace(ATTRIBUTE[3], EscapeHtml(s)));
  }

  /** The label loop: one replacement per listed character. */
  method EscapeLabel(title: string) returns (escaped: string)
    ensures escaped == OnePass(LABEL, title)
  {
    escaped := title;
    for i := 0 to |LABEL|
      invariant Successive(LABEL[i..], escaped) == Successive(LABEL, title)
    {
      escaped := Replace(LABEL[i], escaped);
      assert LABEL[i..][1..] == LABEL[i + 1..];
    }
    assert LABEL[|LABEL|..] == [];
    LabelIsWellMade();
    OrderedRulesAreOnePass(LABEL, title);
  }

  /** Where a link label ends: at the first bracket that is not escaped. */
  function LabelEnd(s: string): nat {
    if s == [] || s[0] == ']' then 0
    else if s[0] == '\\' && |s| > 1 then 2 + LabelEnd(s[2..])
    else 1 + LabelEnd(s[1..])
  }

  lemma CodeOfLabel(c: char)
    ensures Code(LABEL, c) == if c in {'\\', '[', ']', '(', ')'} then ['\\', c] else [c]
  {
    var i := CodeMeaning(LABEL, c);
    assert LABEL[0].what == '\\' && LABEL[1].what == '[' && LABEL[2].what == ']' && LABEL[3].what == '(' && LABEL[4].what == ')';
    assert forall i :: 0 <= i < |LABEL| ==> LABEL[i].code == ['\\', LABEL[i].what];
  }

  /** The label of an announcement ends where the title does, and reads back as the title. */
  lemma {:induction false} LabelEndsAtTitle(title: string, link: string)
    ensures LabelEnd(OnePass(LABEL, title) + "](" + link) == |OnePass(LABEL, title)|
    ensures Unescape(LABEL, OnePass(LABEL, title)) == Some(title)
  {
    LabelIsWellMade();
    EscapingRoundTrip(LABEL, title);
    LabelEndsAtBracket(title, "](" + link);
    assert OnePass(LABEL, title) + "](" + link == OnePass(LABEL, title) + ("](" + link);
  }

  lemma {:induction false} LabelEndsAtBracket(title: string, x: string)
    requires x != [] && x[0] == ']'
    ensures LabelEnd(OnePass(LABEL, title) + x) == |OnePass(LABEL, title)|
  {
    if title == [] {
      assert OnePass(LABEL, title) + x == x;
    } else {
      var code, rest := Code(LABEL, title[0]), OnePass(LABEL, title[1..]);
      CodeOfLabel(title[0]);
      LabelEndsAtBracket(title[1..], x);
      assert OnePass(LABEL, title) + x == code + (rest + x);
      assert (code + (rest + x))[|code|..] == rest + x;
    }
  }

  method AnnouncementBody(intro: string, group: string, topic: string, title: string) returns (body: string)
    ensures body == intro + "[" + OnePass(LABEL, title) + "](/groups/" + group + "/topics/" + topic + "/chat)"
  {
    var escaped := EscapeLabel(title);
    body := intro + "[" + escaped + "](/groups/" + group + "/topics/" + topic + "/chat)";
  }
}
