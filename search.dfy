/**
 * Title matching for the issue search (app/routers/library/search_utils.py:8-88):
 * titles and queries are compared as lower-case alphanumeric tokens.
 */
module Search {
  import opened Text

  /** A character of `[0-9a-zA-Z]`. */
  predicate IsTokenChar(c: char) { IsDigit(c) || IsAsciiLower(c) || IsAsciiUpper(c) }

  predicate IsTokenText(s: string) { forall i :: 0 <= i < |s| ==> IsTokenChar(s[i]) }

  /** What `tokenize` yields: a non-empty run of digits and lower-case ASCII letters. */
  predicate IsLowerToken(s: string) {
    s != [] && forall i :: 0 <= i < |s| ==> IsTokenChar(s[i]) && !IsAsciiUpper(s[i])
  }

  /** The length of the longest prefix of `s` made of token characters. */
  function TokenLength(s: string): (n: nat)
    ensures n <= |s| && IsTokenText(s[..n])
    ensures n < |s| ==> !IsTokenChar(s[n])
    decreases |s|
  {
    if s != [] && IsTokenChar(s[0]) then 1 + TokenLength(s[1..]) else 0
  }

  /** `re.findall("[0-9a-zA-Z]+", s)`: the maximal runs of token characters, left to right. */
  function Runs(s: string): (r: seq<string>)
    ensures forall i :: 0 <= i < |r| ==> r[i] != [] && IsTokenText(r[i])
    ensures forall i, j :: 0 <= i < |r| && 0 <= j < |r[i]| ==> r[i][j] in s
    decreases |s|
  {
    if s == [] then []
    else if !IsTokenChar(s[0]) then Runs(s[1..])
    else
      var n := TokenLength(s);
      [s[..n]] + Runs(s[n..])
  }

  /** `tokenize` */
  function Tokenize(text: string): (r: seq<string>)
    ensures forall i :: 0 <= i < |r| ==> IsLowerToken(r[i])
  {
    var low := Lower(text);
    var r := Runs(low);
    assert forall c :: c in low ==> !IsAsciiUpper(c);
    r
  }

  /** `_normalized_text` */
  function Normalized(tokens: seq<string>): string { Join(tokens, " ") }

  /** `_collapsed_text` */
  function Collapsed(tokens: seq<string>): string { Join(tokens, "") }

  /** The token characters of `s`, in order: the reference `Collapsed(Tokenize(…))` is checked against. */
  function TokenChars(s: string): (r: string)
    ensures IsTokenText(r)
    decreases |s|
  {
    if s == [] then [] else (if IsTokenChar(s[0]) then [s[0]] else []) + TokenChars(s[1..])
  }

  /** Some query token of length three or more lies inside a title token, or the other way round. */
  predicate FuzzyPair(queryTokens: set<string>, titleTokens: seq<string>) {
    exists q, t :: q in queryTokens && t in titleTokens && ((|q| >= 3 && Contains(t, q)) || (|t| >= 3 && Contains(q, t)))
  }

  /** `matches_search`; the nested loops return True as soon as some pair qualifies, so they are the existential `FuzzyPair`. */
  function MatchesSearch(title: string, query: string): (r: bool)
    ensures Tokenize(query) == [] ==> r
    ensures Tokenize(query) != [] && Tokenize(title) == [] ==> !r
    ensures (exists t :: t in Tokenize(title) && t in Tokenize(query)) ==> r
  {
    var queryTokens := Tokenize(query);
    if queryTokens == [] then true
    else
      var titleTokens := Tokenize(title);
      if titleTokens == [] then false
      else if Contains(Normalized(titleTokens), Normalized(queryTokens)) then true
      else if Collapsed(queryTokens) != [] && Contains(Collapsed(titleTokens), Collapsed(queryTokens)) then true
      else
        var titleSet := set t | t in titleTokens;
        var querySet := set q | q in queryTokens;
        assert forall t :: t in titleTokens && t in queryTokens ==> t in titleSet * querySet;
        if querySet <= titleSet then true
        else if titleSet * querySet != {} then true
        else FuzzyPair(querySet, titleTokens)
  }

  // ----- Tokens and the collapsed text -----

  lemma {:induction false} TokenCharsAppend(a: string, b: string)
    ensures TokenChars(a + b) == TokenChars(a) + TokenChars(b)
    decreases |a|
  {
    if a != [] {
      assert (a + b)[0] == a[0] && (a + b)[1..] == a[1..] + b;
      TokenCharsAppend(a[1..], b);
    } else {
      assert a + b == b;
    }
  }

  lemma {:induction false} TokenCharsOfTokenText(s: string)
    requires IsTokenText(s)
    ensures TokenChars(s) == s
    decreases |s|
  {
    if s != [] {
      TokenCharsOfTokenText(s[1..]);
    }
  }

  lemma CollapsedCons(a: string, rest: seq<string>)
    ensures Collapsed([a] + rest) == a + Collapsed(rest)
  {
    if rest != [] {
      assert ([a] + rest)[1..] == rest;
    }
  }

  /** The tokens of `s` put together are exactly the token characters of `s`. */
  lemma {:induction false} CollapsedRuns(s: string)
    ensures Collapsed(Runs(s)) == TokenChars(s)
    decreases |s|
  {
    if s != [] {
      if !IsTokenChar(s[0]) {
        CollapsedRuns(s[1..]);
      } else {
        var n := TokenLength(s);
        CollapsedRuns(s[n..]);
        CollapsedCons(s[..n], Runs(s[n..]));
        assert s == s[..n] + s[n..];
        TokenCharsAppend(s[..n], s[n..]);
        TokenCharsOfTokenText(s[..n]);
      }
    }
  }

  /** `_collapsed_text(tokenize(s))` keeps the letters and digits of `s.lower()` and drops everything else. */
  lemma CollapsedTokenize(s: string)
    ensures Collapsed(Tokenize(s)) == TokenChars(Lower(s))
  {
    CollapsedRuns(Lower(s));
  }

  // ----- Tokenizing joined tokens gives them back -----

  lemma {:induction false} TokenLengthOfToken(a: string, b: string)
    requires IsTokenText(a)
    requires b == [] || !IsTokenChar(b[0])
    ensures TokenLength(a + b) == |a|
    decreases |a|
  {
    if a != [] {
      assert (a + b)[1..] == a[1..] + b;
      TokenLengthOfToken(a[1..], b);
    }
  }

  /** Tokens joined by any non-token separator tokenize back to themselves. */
  lemma {:induction false} RunsOfJoin(tokens: seq<string>, sep: char)
    requires forall i :: 0 <= i < |tokens| ==> tokens[i] != [] && IsTokenText(tokens[i])
    requires !IsTokenChar(sep)
    ensures Runs(Join(tokens, [sep])) == tokens
    decreases |tokens|
  {
    if |tokens| == 1 {
      var t := tokens[0];
      TokenLengthOfToken(t, []);
      assert t + [] == t;
      assert t[..|t|] == t && t[|t|..] == [];
    } else if |tokens| > 1 {
      var t := tokens[0];
      var rest := Join(tokens[1..], [sep]);
      var s := t + [sep] + rest;
      assert s == t + ([sep] + rest);
      TokenLengthOfToken(t, [sep] + rest);
      assert s[..|t|] == t;
      assert s[|t|..] == [sep] + rest;
      assert ([sep] + rest)[1..] == rest;
      RunsOfJoin(tokens[1..], sep);
      assert tokens == [t] + tokens[1..];
    }
  }

  lemma {:induction false} JoinKeepsLowercase(tokens: seq<string>, sep: string)
    requires forall i :: 0 <= i < |tokens| ==> IsLowerToken(tokens[i])
    requires forall j :: 0 <= j < |sep| ==> !IsAsciiUpper(sep[j])
    ensures forall j :: 0 <= j < |Join(tokens, sep)| ==> !IsAsciiUpper(Join(tokens, sep)[j])
    decreases |tokens|
  {
    if |tokens| > 1 {
      JoinKeepsLowercase(tokens[1..], sep);
      var t, rest := tokens[0], Join(tokens[1..], sep);
      forall j | 0 <= j < |t + sep + rest| ensures !IsAsciiUpper((t + sep + rest)[j]) {
        if j < |t| {
        } else if j < |t| + |sep| {
          assert (t + sep + rest)[j] == sep[j - |t|];
        } else {
          assert (t + sep + rest)[j] == rest[j - |t| - |sep|];
        }
      }
    }
  }

  /** Tokenizing the normalized text gives the same tokens: `_normalized_text` loses nothing. */
  lemma TokenizeNormalized(s: string)
    ensures Tokenize(Normalized(Tokenize(s))) == Tokenize(s)
  {
    var tokens := Tokenize(s);
    JoinKeepsLowercase(tokens, " ");
    LowerOfLowercase(Normalized(tokens));
    RunsOfJoin(tokens, ' ');
  }

  /** Splitting the normalized text at spaces also gives the tokens back. */
  lemma SplitNormalized(s: string)
    ensures Split(Normalized(Tokenize(s)), ' ') == Tokenize(s) || Tokenize(s) == []
  {
    var tokens := Tokenize(s);
    if tokens != [] {
      SplitJoin(tokens, ' ');
    }
  }

  // ----- Properties of matches_search -----

  lemma LowerChars(s: string)
    ensures Lower(Lower(s)) == Lower(s)
    ensures Lower(Upper(s)) == Lower(s)
  {
  }

  /** Letter case never changes the outcome. */
  lemma MatchesSearchIgnoresCase(title: string, query: string)
    ensures MatchesSearch(Lower(title), query) == MatchesSearch(title, query)
    ensures MatchesSearch(Upper(title), query) == MatchesSearch(title, query)
    ensures MatchesSearch(title, Lower(query)) == MatchesSearch(title, query)
    ensures MatchesSearch(title, Upper(query)) == MatchesSearch(title, query)
  {
    LowerChars(title);
    LowerChars(query);
  }

  /** Every title matches itself. */
  lemma MatchesItself(s: string)
    ensures MatchesSearch(s, s)
  {
    ContainsItself(Normalized(Tokenize(s)));
  }

  /** Title words separated by punctuation match the same words run together (`X-Men` and `xmen`). */
  lemma PunctuationIsIgnored(a: string, b: string, sep: char)
    requires IsLowerToken(a) && IsLowerToken(b) && !IsTokenChar(sep)
    ensures MatchesSearch(a + [sep] + b, a + b)
  {
    var title, query := a + [sep] + b, a + b;
    JoinKeepsLowercase([a, b], [sep]);
    assert [a, b][1..] == [b];
    assert Join([a, b], [sep]) == title;
    LowerOfLowercase(title);
    RunsOfJoin([a, b], sep);
    assert Tokenize(title) == [a, b];
    JoinKeepsLowercase([query], "");
    assert Join([query], "") == query;
    LowerOfLowercase(query);
    RunsOfJoin([query], ' ');
    assert Tokenize(query) == [query];
    assert Join([query], "") == query;
    CollapsedCons(a, [b]);
    assert Collapsed(Tokenize(title)) == query;
    ContainsItself(query);
  }

  lemma {:induction false} TokenCharOfCollapsed(tokens: seq<string>, i: nat, j: nat)
    requires i < |tokens| && j < |tokens[i]|
    ensures tokens[i][j] in Collapsed(tokens)
    decreases |tokens|
  {
    CollapsedCons(tokens[0], tokens[1..]);
    assert tokens == [tokens[0]] + tokens[1..];
    if i == 0 {
      assert Collapsed(tokens)[j] == tokens[0][j];
    } else {
      TokenCharOfCollapsed(tokens[1..], i - 1, j);
      var k :| 0 <= k < |Collapsed(tokens[1..])| && Collapsed(tokens[1..])[k] == tokens[i][j];
      assert Collapsed(tokens)[|tokens[0]| + k] == tokens[i][j];
    }
  }

  lemma {:induction false} TokenCharOfNormalized(tokens: seq<string>, k: nat)
    requires forall i :: 0 <= i < |tokens| ==> IsLowerToken(tokens[i])
    requires k < |Normalized(tokens)| && Normalized(tokens)[k] != ' '
    ensures Normalized(tokens)[k] in Collapsed(tokens)
    decreases |tokens|
  {
    var t := tokens[0];
    if |tokens| == 1 {
      TokenCharOfCollapsed(tokens, 0, k);
    } else {
      var rest := Normalized(tokens[1..]);
      assert Normalized(tokens) == t + " " + rest;
      if k < |t| {
        TokenCharOfCollapsed(tokens, 0, k);
      } else {
        assert k > |t|;
        assert Normalized(tokens)[k] == rest[k - |t| - 1];
        TokenCharOfNormalized(tokens[1..], k - |t| - 1);
        var m :| 0 <= m < |Collapsed(tokens[1..])| && Collapsed(tokens[1..])[m] == rest[k - |t| - 1];
        CollapsedCons(t, tokens[1..]);
        assert tokens == [t] + tokens[1..];
        assert Collapsed(tokens)[|t| + m] == rest[k - |t| - 1];
      }
    }
  }

  /** Every character of a contained text occurs in the text that contains it. */
  lemma CharInContaining(s: string, sub: string, j: nat)
    requires Contains(s, sub) && j < |sub|
    ensures sub[j] in s
  {
    ContainsIffOccurs(s, sub);
    var i :| OccursAt(s, sub, i);
    assert s[i + j] == s[i..i + |sub|][j];
  }

  /** A token character of the tokens' collapsed text comes from the title's letters and digits. */
  lemma InTokenChars(s: string, c: char)
    requires c in Collapsed(Tokenize(s))
    ensures c in TokenChars(Lower(s))
  {
    CollapsedTokenize(s);
  }

  /**
   * A query with letters or digits only matches a title that shares one of
   * them: every test in `matches_search` needs a common character.
   */
  lemma MatchNeedsSharedCharacter(title: string, query: string)
    requires Tokenize(query) != []
    requires MatchesSearch(title, query)
    ensures exists c :: c in TokenChars(Lower(title)) && c in TokenChars(Lower(query))
  {
    var qt, tt := Tokenize(query), Tokenize(title);
    var q0 := qt[0];
    TokenCharOfCollapsed(qt, 0, 0);
    InTokenChars(query, q0[0]);
    var nt, nq := Normalized(tt), Normalized(qt);
    if Contains(nt, nq) {
      assert nq[0] == q0[0];
      CharInContaining(nt, nq, 0);
      var k :| 0 <= k < |nt| && nt[k] == q0[0];
      TokenCharOfNormalized(tt, k);
      InTokenChars(title, q0[0]);
    } else if Contains(Collapsed(tt), Collapsed(qt)) && Collapsed(qt) != [] {
      CollapsedCons(q0, qt[1..]);
      assert qt == [q0] + qt[1..];
      assert Collapsed(qt)[0] == q0[0];
      CharInContaining(Collapsed(tt), Collapsed(qt), 0);
      InTokenChars(title, q0[0]);
    } else {
      var titleSet := set t | t in tt;
      var querySet := set q | q in qt;
      if querySet <= titleSet {
        assert q0 in querySet;
        var i :| 0 <= i < |tt| && tt[i] == q0;
        TokenCharOfCollapsed(tt, i, 0);
        InTokenChars(title, q0[0]);
      } else if titleSet * querySet != {} {
        var w :| w in titleSet * querySet;
        var i :| 0 <= i < |tt| && tt[i] == w;
        var j :| 0 <= j < |qt| && qt[j] == w;
        TokenCharOfCollapsed(tt, i, 0);
        TokenCharOfCollapsed(qt, j, 0);
        InTokenChars(title, w[0]);
        InTokenChars(query, w[0]);
      } else {
        assert FuzzyPair(querySet, tt);
        var q, t :| q in querySet && t in tt && ((|q| >= 3 && Contains(t, q)) || (|t| >= 3 && Contains(q, t)));
        var i :| 0 <= i < |tt| && tt[i] == t;
        var j :| 0 <= j < |qt| && qt[j] == q;
        if |q| >= 3 && Contains(t, q) {
          CharInContaining(t, q, 0);
          var k :| 0 <= k < |t| && t[k] == q[0];
          TokenCharOfCollapsed(tt, i, k);
          TokenCharOfCollapsed(qt, j, 0);
          InTokenChars(title, q[0]);
          InTokenChars(query, q[0]);
        } else {
          CharInContaining(q, t, 0);
          var k :| 0 <= k < |q| && q[k] == t[0];
          TokenCharOfCollapsed(tt, i, 0);
          TokenCharOfCollapsed(qt, j, k);
          InTokenChars(title, t[0]);
          InTokenChars(query, t[0]);
        }
      }
    }
  }

  /** A query token of three or more characters found inside a title word is enough (`bat` finds `Batman`). */
  lemma PartialWordMatches(title: string, query: string, i: nat, j: nat)
    requires i < |Tokenize(title)| && j < |Tokenize(query)|
    requires |Tokenize(query)[j]| >= 3 && Contains(Tokenize(title)[i], Tokenize(query)[j])
    ensures MatchesSearch(title, query)
  {
    var qt, tt := Tokenize(query), Tokenize(title);
    var querySet := set q | q in qt;
    assert qt[j] in querySet && tt[i] in tt;
  }

  /**
   * With a query that has tokens, `matches_search` is true exactly when one of
   * its tests passes: the normalized query inside the normalized title, the
   * collapsed query inside the collapsed title, a shared token, or a fuzzy pair.
   */
  lemma MatchesSearchCases(title: string, query: string)
    requires Tokenize(query) != []
    ensures var tt, qt := Tokenize(title), Tokenize(query);
            MatchesSearch(title, query) <==>
              || Contains(Normalized(tt), Normalized(qt))
              || Contains(Collapsed(tt), Collapsed(qt))
              || (exists t :: t in tt && t in qt)
              || FuzzyPair((set q | q in qt), tt)
  {
    var tt, qt := Tokenize(title), Tokenize(query);
    TokenCharOfCollapsed(qt, 0, 0);
    assert Normalized(qt)[0] == qt[0][0];
    if tt != [] {
      var titleSet := set t | t in tt;
      var querySet := set q | q in qt;
      if querySet <= titleSet {
        assert qt[0] in querySet;
      }
      if titleSet * querySet != {} {
        var w :| w in titleSet * querySet;
      }
    }
  }

  lemma TokenizeXFarce()
    ensures Tokenize("X-Farce") == ["x", "farce"]
  {
    assert Lower("X-Farce") == "x-farce";
    assert Join(["x", "farce"], "-") == "x-farce";
    RunsOfJoin(["x", "farce"], '-');
  }

  lemma TokenizeXtrem()
    ensures Tokenize("Xtrem") == ["xtrem"]
  {
    assert Lower("Xtrem") == "xtrem";
    assert Join(["xtrem"], " ") == "xtrem";
    RunsOfJoin(["xtrem"], ' ');
  }

  /** `s.lower()` of a concatenation is the concatenation of the lower-case parts. */
  lemma LowerAppend(a: string, b: string)
    ensures Lower(a + b) == Lower(a) + Lower(b)
  {
  }

  lemma CollapsedXTreme(rest: string)
    ensures TokenChars(Lower("X-Treme" + rest)) == "xtreme" + TokenChars(Lower(rest))
  {
    LowerAppend("X-Treme", rest);
    assert Lower("X-Treme") == "x-treme";
    TokenCharsAppend("x-treme", Lower(rest));
    assert TokenChars("x-treme") == "xtreme";
  }

  /**
   * The partial-match example: `Xtrem` finds `X-Treme X-Men, Vol. 1` through
   * the collapsed text ...
   */
  lemma XtremFindsXTreme()
    ensures MatchesSearch("X-Treme X-Men, Vol. 1", "Xtrem")
  {
    var rest := " X-Men, Vol. 1";
    var title := "X-Treme" + rest;
    assert title == "X-Treme X-Men, Vol. 1";
    TokenizeXtrem();
    CollapsedTokenize(title);
    CollapsedXTreme(rest);
    var collapsed := "xtreme" + TokenChars(Lower(rest));
    assert collapsed[..5] == "xtrem";
    assert Collapsed(["xtrem"]) == "xtrem";
    assert StartsWith(collapsed, "xtrem");
    MatchesSearchCases(title, "Xtrem");
  }

  /** Neither text of `X-Farce` holds the `t` of `xtrem`. */
  lemma XFarceTextsMissXtrem()
    ensures !Contains(Normalized(["x", "farce"]), Normalized(["xtrem"]))
    ensures !Contains(Collapsed(["x", "farce"]), Collapsed(["xtrem"]))
  {
    assert Normalized(["x", "farce"]) == "x farce" && Collapsed(["x", "farce"]) == "xfarce";
    assert Normalized(["xtrem"]) == "xtrem" && Collapsed(["xtrem"]) == "xtrem";
    if Contains("x farce", "xtrem") {
      CharInContaining("x farce", "xtrem", 1);
    }
    if Contains("xfarce", "xtrem") {
      CharInContaining("xfarce", "xtrem", 1);
    }
  }

  /** `xtrem` is no title token, nor in one, and `farce`, the only long one, is not in `xtrem`. */
  lemma XFarceNoFuzzyPair()
    ensures forall t :: t in ["x", "farce"] ==> t !in ["xtrem"]
    ensures !FuzzyPair((set q | q in ["xtrem"]), ["x", "farce"])
  {
    assert (set q | q in ["xtrem"]) == {"xtrem"};
    forall q, t | q in {"xtrem"} && t in ["x", "farce"]
      ensures !((|q| >= 3 && Contains(t, q)) || (|t| >= 3 && Contains(q, t)))
    {
      assert q[1] == 't' && 't' !in t;
      if Contains(t, q) {
        CharInContaining(t, q, 1);
      }
      if |t| >= 3 {
        assert t[0] == 'f' && 'f' !in q;
        if Contains(q, t) {
          CharInContaining(q, t, 0);
        }
      }
    }
  }

  /** No test of `matches_search` passing means no match. */
  lemma NoTestNoMatch(title: string, query: string, tt: seq<string>, qt: seq<string>)
    requires Tokenize(title) == tt && Tokenize(query) == qt && qt != []
    requires !Contains(Normalized(tt), Normalized(qt)) && !Contains(Collapsed(tt), Collapsed(qt))
    requires forall t :: t in tt ==> t !in qt
    requires !FuzzyPair((set q | q in qt), tt)
    ensures !MatchesSearch(title, query)
  {
    MatchesSearchCases(title, query);
  }

  /**
   * ... and does not find `X-Farce`: no test of `matches_search` passes.
   */
  lemma XtremMissesXFarce(title: string, query: string)
    requires title == "X-Farce" && query == "Xtrem"
    ensures !MatchesSearch(title, query)
  {
    var tt, qt := ["x", "farce"], ["xtrem"];
    assert Tokenize(title) == tt by { TokenizeXFarce(); }
    assert Tokenize(query) == qt by { TokenizeXtrem(); }
    XFarceTextsMissXtrem();
    XFarceNoFuzzyPair();
    NoTestNoMatch(title, query, tt, qt);
  }
}
