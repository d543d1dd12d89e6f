/** The multi-keyword filter that the recipe and idea search handlers share: a
    record is kept when every lower-cased token is a substring of at least one of
    its Title, Meal, Core and Source, a falsy field counting as "". */
module Search {
  import opened Values
  import opened Text

  /** The four fields a search looks at; Notes, Ingredients and the rest never are. */
  datatype Fields = Fields(title: Value, meal: Value, core: Value, source: Value)

  /** The tokens of a query: `query.strip()`, then `.lower().split()`. Every token
      is a non-empty, whitespace-free word with no upper-case letter. */
  function Tokens(query: string): (ws: seq<string>)
    ensures forall i :: 0 <= i < |ws| ==> IsWord(ws[i]) && IsLower(ws[i])
  {
    LowerIsLower(Strip(query));
    SplitKeepsLower(Lower(Strip(query)));
    Split(Lower(Strip(query)))
  }

  /** An empty or whitespace-only query has no tokens, and only such a query. */
  lemma TokensEmptyIff(query: string)
    ensures Tokens(query) == [] <==> AllSpace(query)
  {
    var t := Strip(Lower(query));
    assert Tokens(query) == Split(t) by {
      LowerStripCommute(query);
    }
    SplitIgnoresStrip(Lower(query));
    SplitEmptyIff(Lower(query));
    LowerKeepsSpace(query);
  }

  /** Lower-casing neither adds nor removes whitespace. */
  lemma LowerKeepsSpace(s: string)
    ensures AllSpace(Lower(s)) <==> AllSpace(s)
  {
    forall i | 0 <= i < |s| ensures IsSpace(Lower(s)[i]) <==> IsSpace(s[i]) {
    }
  }

  lemma {:induction false} LowerLStrip(s: string)
    ensures Lower(LStrip(s)) == LStrip(Lower(s))
    decreases |s|
  {
    if s != [] {
      assert Lower(s)[1..] == Lower(s[1..]);
      if IsSpace(s[0]) {
        LowerLStrip(s[1..]);
      }
    }
  }

  lemma {:induction false} LowerRStrip(s: string)
    ensures Lower(RStrip(s)) == RStrip(Lower(s))
    decreases |s|
  {
    if s != [] {
      assert Lower(s)[..|s| - 1] == Lower(s[..|s| - 1]);
      if IsSpace(s[|s| - 1]) {
        LowerRStrip(s[..|s| - 1]);
      }
    }
  }

  lemma LowerStripCommute(s: string)
    ensures Lower(Strip(s)) == Strip(Lower(s))
  {
    LowerRStrip(LStrip(s));
    LowerLStrip(s);
  }

  // ------------------------------------------------------------ as the source evaluates it

  /** `(field or '').lower()`: None where `.lower()` raises, because the field is
      truthy but not a string. */
  function FieldText(v: Value): (t: Option<string>)
    ensures t.None? <==> !Searchable(v)
    ensures t.Some? ==> t.value == Searched(v)
  {
    if !Truthy(v) then Some("") else if v.Str? then Some(Lower(v.s)) else None
  }

  /** `word in (field or '').lower()`. */
  function FieldHit(v: Value, word: string): (hit: Option<bool>)
    ensures hit.None? <==> !Searchable(v)
  {
    match FieldText(v)
    case None => None
    case Some(t) => Some(Contains(t, word))
  }

  /** Python's short-circuit `a or b` where evaluating either side may raise. */
  function OrElse(a: Option<bool>, b: Option<bool>): Option<bool> {
    match a
    case None => None
    case Some(true) => Some(true)
    case Some(false) => b
  }

  /** One token against Title, Meal, Core and Source, in that order: a hit on an
      earlier field decides before a later one is looked at, so a field that raises
      matters only when every field before it missed. */
  function TokenHit(f: Fields, word: string): (hit: Option<bool>)
    ensures FieldHit(f.title, word) == Some(true) ==> hit == Some(true)
    ensures FieldHit(f.title, word) == Some(false) && FieldHit(f.meal, word) == Some(true) ==> hit == Some(true)
    ensures hit.None? ==>
              !Searchable(f.title)
              || (FieldHit(f.title, word) == Some(false) && !Searchable(f.meal))
              || (FieldHit(f.title, word) == Some(false) && FieldHit(f.meal, word) == Some(false) && !Searchable(f.core))
              || (FieldHit(f.title, word) == Some(false) && FieldHit(f.meal, word) == Some(false)
                  && FieldHit(f.core, word) == Some(false) && !Searchable(f.source))
  {
    OrElse(FieldHit(f.title, word), OrElse(FieldHit(f.meal, word),
      OrElse(FieldHit(f.core, word), FieldHit(f.source, word))))
  }

  /** `all(... for word in words)`: stops at the first token that misses or raises. */
  function AllHit(f: Fields, words: seq<string>): (all: Option<bool>)
    ensures words == [] ==> all == Some(true)
    ensures all == Some(true) ==> forall i :: 0 <= i < |words| ==> TokenHit(f, words[i]) == Some(true)
    decreases |words|
  {
    if words == [] then Some(true)
    else
      match TokenHit(f, words[0])
      case None => None
      case Some(false) => Some(false)
      case Some(true) => AllHit(f, words[1..])
  }

  /** The list comprehension over the fetched records: None when evaluating any
      record raises, the kept records in order otherwise. */
  function Filtered<R>(rs: seq<R>, fields: R -> Fields, words: seq<string>): (kept: Option<seq<R>>)
    ensures kept.Some? ==> |kept.value| <= |rs| && forall x :: x in kept.value ==> x in rs
    ensures words == [] ==> kept == Some(rs)
    decreases |rs|
  {
    if rs == [] then Some([])
    else
      match AllHit(fields(rs[0]), words)
      case None => None
      case Some(keep) =>
        match Filtered(rs[1..], fields, words)
        case None => None
        case Some(rest) =>
          assert rs == [rs[0]] + rs[1..];
          Some(if keep then [rs[0]] + rest else rest)
  }

  // ------------------------------------------------------------ specification

  /** The text a field offers to a search: its lower-cased string, or "" for any
      value that is not a string. */
  function Searched(v: Value): string {
    if v.Str? then Lower(v.s) else ""
  }

  /** The token is a substring of at least one of the four fields. */
  predicate Hits(f: Fields, word: string) {
    Contains(Searched(f.title), word) || Contains(Searched(f.meal), word)
    || Contains(Searched(f.core), word) || Contains(Searched(f.source), word)
  }

  /** Every token hits some field; different tokens may hit different fields. */
  predicate Matches(f: Fields, words: seq<string>) {
    forall i :: 0 <= i < |words| ==> Hits(f, words[i])
  }

  /** The records that match, in their original order. */
  function Filter<R>(rs: seq<R>, fields: R -> Fields, words: seq<string>): seq<R>
    decreases |rs|
  {
    if rs == [] then []
    else (if Matches(fields(rs[0]), words) then [rs[0]] else []) + Filter(rs[1..], fields, words)
  }

  /** A field the source can search without raising: falsy, or a string. */
  predicate Searchable(v: Value) {
    !Truthy(v) || v.Str?
  }

  predicate AllSearchable<R>(rs: seq<R>, fields: R -> Fields) {
    forall i :: 0 <= i < |rs| ==>
      var f := fields(rs[i]);
      Searchable(f.title) && Searchable(f.meal) && Searchable(f.core) && Searchable(f.source)
  }

  lemma FieldHitAgrees(v: Value, word: string)
    ensures FieldHit(v, word).Some? ==> FieldHit(v, word).value == Contains(Searched(v), word)
    ensures Searchable(v) ==> FieldHit(v, word).Some?
  {
  }

  lemma TokenHitAgrees(f: Fields, word: string)
    ensures TokenHit(f, word).Some? ==> TokenHit(f, word).value == Hits(f, word)
    ensures Searchable(f.title) && Searchable(f.meal) && Searchable(f.core) && Searchable(f.source)
            ==> TokenHit(f, word).Some?
  {
    FieldHitAgrees(f.title, word);
    FieldHitAgrees(f.meal, word);
    FieldHitAgrees(f.core, word);
    FieldHitAgrees(f.source, word);
  }

  lemma {:induction false} AllHitAgrees(f: Fields, words: seq<string>)
    ensures AllHit(f, words).Some? ==> AllHit(f, words).value == Matches(f, words)
    ensures Searchable(f.title) && Searchable(f.meal) && Searchable(f.core) && Searchable(f.source)
            ==> AllHit(f, words).Some?
    decreases |words|
  {
    if words != [] {
      TokenHitAgrees(f, words[0]);
      AllHitAgrees(f, words[1..]);
      assert Matches(f, words) <==> Hits(f, words[0]) && Matches(f, words[1..]) by {
        if Hits(f, words[0]) && Matches(f, words[1..]) {
          forall i | 0 <= i < |words| ensures Hits(f, words[i]) {
            if i > 0 { assert words[i] == words[1..][i - 1]; }
          }
        }
      }
    }
  }

  /** When the source's comprehension finishes, it keeps exactly the records the
      specification keeps; and it always finishes when every searched field is a
      string or falsy. (A truthy non-string field makes it raise only if that field
      is reached before a decision, so the converse does not hold.) */
  lemma {:induction false} FilteredAgrees<R>(rs: seq<R>, fields: R -> Fields, words: seq<string>)
    ensures Filtered(rs, fields, words).Some? ==> Filtered(rs, fields, words).value == Filter(rs, fields, words)
    ensures AllSearchable(rs, fields) ==> Filtered(rs, fields, words).Some?
    decreases |rs|
  {
    if rs != [] {
      AllHitAgrees(fields(rs[0]), words);
      assert AllSearchable(rs, fields) ==> AllSearchable(rs[1..], fields) by {
        if AllSearchable(rs, fields) {
          forall i | 0 <= i < |rs[1..]|
            ensures var f := fields(rs[1..][i]);
                    Searchable(f.title) && Searchable(f.meal) && Searchable(f.core) && Searchable(f.source)
          {
            assert rs[1..][i] == rs[i + 1];
          }
        }
      }
      FilteredAgrees(rs[1..], fields, words);
    }
  }

  // ------------------------------------------------------------ properties of the filter

  /** With no tokens every record is kept, unchanged and in order. */
  lemma {:induction false} FilterNoTokens<R>(rs: seq<R>, fields: R -> Fields)
    ensures Filter(rs, fields, []) == rs
    decreases |rs|
  {
    if rs != [] {
      FilterNoTokens(rs[1..], fields);
      assert rs == [rs[0]] + rs[1..];
    }
  }

  /** A record is in the result exactly when it is among the inputs and matches. */
  lemma {:induction false} FilterMembership<R>(rs: seq<R>, fields: R -> Fields, words: seq<string>, x: R)
    ensures x in Filter(rs, fields, words) <==> x in rs && Matches(fields(x), words)
    decreases |rs|
  {
    if rs != [] {
      var rest := Filter(rs[1..], fields, words);
      FilterMembership(rs[1..], fields, words, x);
      assert x in rs <==> x == rs[0] || x in rs[1..] by {
        assert rs == [rs[0]] + rs[1..];
      }
      if Matches(fields(rs[0]), words) {
        assert Filter(rs, fields, words) == [rs[0]] + rest;
        assert x in [rs[0]] + rest <==> x == rs[0] || x in rest;
      } else {
        assert Filter(rs, fields, words) == rest;
      }
    }
  }

  /** `a` is `b` with some elements left out, the rest in their order. */
  ghost predicate IsSubsequence<T>(a: seq<T>, b: seq<T>)
    decreases |b|
  {
    a == [] || (b != [] && ((a[0] == b[0] && IsSubsequence(a[1..], b[1..])) || IsSubsequence(a, b[1..])))
  }

  /** The result keeps the records' order: it is a subsequence of the input. */
  lemma {:induction false} FilterIsSubsequence<R>(rs: seq<R>, fields: R -> Fields, words: seq<string>)
    ensures IsSubsequence(Filter(rs, fields, words), rs)
    decreases |rs|
  {
    if rs != [] {
      var rest := Filter(rs[1..], fields, words);
      FilterIsSubsequence(rs[1..], fields, words);
      if Matches(fields(rs[0]), words) {
        var a := [rs[0]] + rest;
        assert Filter(rs, fields, words) == a;
        assert a[0] == rs[0] && a[1..] == rest;
        assert IsSubsequence(a, rs);
      } else {
        assert Filter(rs, fields, words) == rest;
        assert rest == [] || IsSubsequence(rest, rs[1..]);
      }
    }
  }

  lemma MatchesAppend(f: Fields, words: seq<string>, word: string)
    ensures Matches(f, words + [word]) <==> Matches(f, words) && Hits(f, word)
  {
    var ws := words + [word];
    assert forall i :: 0 <= i < |words| ==> ws[i] == words[i];
    assert ws[|words|] == word;
  }

  /** Adding a token filters the previous result once more: the search narrows. */
  lemma {:induction false} FilterAddToken<R>(rs: seq<R>, fields: R -> Fields, words: seq<string>, word: string)
    ensures Filter(rs, fields, words + [word]) == Filter(Filter(rs, fields, words), fields, [word])
    decreases |rs|
  {
    if rs != [] {
      var f := fields(rs[0]);
      MatchesAppend(f, words, word);
      assert Matches(f, [word]) <==> Hits(f, word) by {
        assert [word][0] == word;
      }
      FilterAddToken(rs[1..], fields, words, word);
      var prev := Filter(rs[1..], fields, words);
      if Matches(f, words) {
        assert Filter(rs, fields, words) == [rs[0]] + prev;
        assert ([rs[0]] + prev)[1..] == prev;
      } else {
        assert Filter(rs, fields, words) == prev;
      }
    }
  }

  /** Hence adding a token never enlarges the result. */
  lemma FilterNarrows<R>(rs: seq<R>, fields: R -> Fields, words: seq<string>, word: string)
    ensures IsSubsequence(Filter(rs, fields, words + [word]), Filter(rs, fields, words))
  {
    FilterAddToken(rs, fields, words, word);
    FilterIsSubsequence(Filter(rs, fields, words), fields, [word]);
  }

  /** The order of the tokens does not matter, nor does a repeated token: only the
      set of tokens decides what is kept. */
  lemma {:induction false} FilterDependsOnTokenSet<R>(rs: seq<R>, fields: R -> Fields, ws1: seq<string>, ws2: seq<string>)
    requires forall w :: w in ws1 <==> w in ws2
    ensures Filter(rs, fields, ws1) == Filter(rs, fields, ws2)
    decreases |rs|
  {
    if rs != [] {
      var f := fields(rs[0]);
      assert Matches(f, ws1) <==> Matches(f, ws2) by {
        if Matches(f, ws1) {
          forall i | 0 <= i < |ws2| ensures Hits(f, ws2[i]) {
            assert ws2[i] in ws1;
          }
        }
        if Matches(f, ws2) {
          forall i | 0 <= i < |ws1| ensures Hits(f, ws1[i]) {
            assert ws1[i] in ws2;
          }
        }
      }
      FilterDependsOnTokenSet(rs[1..], fields, ws1, ws2);
    }
  }

  lemma ExampleTexts()
    ensures Searched(Str("Chicken Soup")) == "chicken soup"
    ensures Searched(Str("Beef Stew")) == "beef stew"
    ensures Searched(Str("soup night")) == "soup night"
  {
    assert Lower("Chicken Soup") == "chicken soup";
    assert Lower("Beef Stew") == "beef stew";
    assert Lower("soup night") == "soup night";
  }

  lemma ExampleContains()
    ensures Contains("chicken soup", "chicken") && Contains("chicken soup", "soup")
    ensures Contains("soup night", "soup")
  {
    ChickenSoupHasChicken();
    ChickenSoupHasSoup();
    SoupNightHasSoup();
  }

  lemma ChickenSoupHasChicken()
    ensures Contains("chicken soup", "chicken")
  {
    assert "chicken soup"[0..7] == "chicken";
    assert OccursAt("chicken soup", "chicken", 0);
    ContainsIff("chicken soup", "chicken");
  }

  lemma ChickenSoupHasSoup()
    ensures Contains("chicken soup", "soup")
  {
    assert "chicken soup"[8..12] == "soup";
    assert OccursAt("chicken soup", "soup", 8);
    ContainsIff("chicken soup", "soup");
  }

  lemma SoupNightHasSoup()
    ensures Contains("soup night", "soup")
  {
    assert "soup night"[0..4] == "soup";
    assert OccursAt("soup night", "soup", 0);
    ContainsIff("soup night", "soup");
  }

  lemma ExampleLacks()
    ensures !Contains("beef stew", "chicken") && !Contains("soup night", "chicken") && !Contains("", "chicken")
  {
    assert "chicken"[0] == 'c';
    assert 'c' !in "beef stew";
    assert 'c' !in "soup night";
    MissingFirstChar("beef stew", "chicken");
    MissingFirstChar("soup night", "chicken");
    MissingFirstChar("", "chicken");
  }

  const Soup := Fields(Str("Chicken Soup"), Null, Null, Null)
  const Stew := Fields(Str("Beef Stew"), Str("soup night"), Null, Null)

  lemma ExampleHits()
    ensures Hits(Soup, "soup") && Hits(Soup, "chicken")
    ensures Hits(Stew, "soup") && !Hits(Stew, "chicken")
  {
    ExampleTexts();
    ExampleContains();
    ExampleLacks();
  }

  lemma ExampleQueryText()
    ensures Lower(Strip("Chicken soup")) == "chicken soup"
    ensures Lower(Strip("soup")) == "soup"
  {
    ChickenSoupQuery();
    SoupQuery();
  }

  lemma ChickenSoupQuery()
    ensures Lower(Strip("Chicken soup")) == "chicken soup"
  {
    assert Strip("Chicken soup") == "Chicken soup";
  }

  lemma SoupQuery()
    ensures Lower(Strip("soup")) == "soup"
  {
    assert Strip("soup") == "soup";
  }

  lemma ExampleSplit()
    ensures Split("chicken soup") == ["chicken", "soup"]
    ensures Split("soup") == ["soup"]
  {
    assert JoinWords(["chicken", "soup"]) == "chicken soup" by {
      assert ["chicken", "soup"][1..] == ["soup"];
    }
    assert IsWord("chicken") && IsWord("soup");
    SplitJoinWords(["chicken", "soup"]);
    SplitJoinWords(["soup"]);
  }

  lemma ExampleTokens()
    ensures Tokens("soup") == ["soup"]
    ensures Tokens("Chicken soup") == ["chicken", "soup"]
  {
    ExampleQueryText();
    ExampleSplit();
  }

  lemma ExampleMatches()
    ensures Matches(Soup, ["soup"]) && Matches(Stew, ["soup"])
    ensures Matches(Soup, ["chicken", "soup"]) && !Matches(Stew, ["chicken", "soup"])
  {
    ExampleHits();
    MatchesPair(Soup, "soup", "soup");
    MatchesPair(Stew, "soup", "soup");
    MatchesPair(Soup, "chicken", "soup");
    MatchesPair(Stew, "chicken", "soup");
  }

  /** One or two tokens match when each hits. */
  lemma MatchesPair(f: Fields, w1: string, w2: string)
    ensures Matches(f, [w1]) <==> Hits(f, w1)
    ensures Matches(f, [w1, w2]) <==> Hits(f, w1) && Hits(f, w2)
  {
    assert [w1][0] == w1;
    assert [w1, w2][0] == w1 && [w1, w2][1] == w2;
  }

  /** Filtering two records decides each on its own. */
  lemma FilterPair<R>(a: R, b: R, fields: R -> Fields, words: seq<string>)
    ensures Filter([a, b], fields, words)
            == (if Matches(fields(a), words) then [a] else []) + (if Matches(fields(b), words) then [b] else [])
  {
    assert [a, b][1..] == [b];
    assert [b][1..] == [];
    assert Filter([b], fields, words) == (if Matches(fields(b), words) then [b] else []) + Filter([], fields, words);
    assert Filter([a, b], fields, words) == (if Matches(fields(a), words) then [a] else []) + Filter([b], fields, words);
  }

  /** The worked example: a chicken soup, and a beef stew served on soup night.
      "soup" finds both; "Chicken soup" finds only the first, since the stew has
      no field containing "chicken". */
  lemma SoupExample(fields: Fields -> Fields)
    requires forall f :: fields(f) == f
    ensures Filter([Soup, Stew], fields, Tokens("soup")) == [Soup, Stew]
    ensures Filter([Soup, Stew], fields, Tokens("Chicken soup")) == [Soup]
  {
    ExampleTokens();
    ExampleMatches();
    FilterPair(Soup, Stew, fields, ["soup"]);
    FilterPair(Soup, Stew, fields, ["chicken", "soup"]);
  }
}
