/**
 Search terms of the paged lists. A user's term is escaped and wrapped in `%`, and
 the database evaluates LIKE ... ESCAPE '!' on it. LIKE follows section 8.5 of
 ISO/IEC 9075-2: the pattern is split into specifiers, an escape character that
 does not precede '%', '_' or itself is an error, and the value must be cut into
 pieces that match the specifiers one by one. Nothing depends on what a char encodes.
*/
module LikeSearch {
  import opened Wrappers

  const ESCAPE := '!'

  // ---------- What the stores build ----------

  /** strings.NewReplacer("!", "!!", "%", "!%", "_", "!_").Replace(term) */
  function Escape(term: string): string
  {
    if term == "" then ""
    else (if Special(term[0]) then [ESCAPE, term[0]] else [term[0]]) + Escape(term[1..])
  }

  function SearchPattern(term: string): string
  {
    "%" + Escape(term) + "%"
  }

  predicate Special(c: char)
  {
    c == ESCAPE || c == '%' || c == '_'
  }

  // ---------- What LIKE means ----------

  datatype Specifier = Literal(c: char) | AnyChar | AnyString

  function Parse(pattern: string): Option<seq<Specifier>>
  {
    if pattern == "" then Some([])
    else if pattern[0] == ESCAPE then
      if |pattern| < 2 || !Special(pattern[1]) then None
      else Prepend(Literal(pattern[1]), Parse(pattern[2..]))
    else Prepend(if pattern[0] == '%' then AnyString else if pattern[0] == '_' then AnyChar else Literal(pattern[0]),
                 Parse(pattern[1..]))
  }

  function Prepend(s: Specifier, rest: Option<seq<Specifier>>): Option<seq<Specifier>>
  {
    if rest.None? then None else Some([s] + rest.value)
  }

  /** The value is cut into consecutive pieces, one for each specifier. */
  ghost predicate Matches(text: string, specs: seq<Specifier>)
    decreases |specs|
  {
    if specs == [] then text == ""
    else exists cut :: 0 <= cut <= |text| && MatchesOne(text[..cut], specs[0]) && Matches(text[cut..], specs[1..])
  }

  predicate MatchesOne(piece: string, spec: Specifier)
  {
    match spec
    case Literal(c) => piece == [c]
    case AnyChar => |piece| == 1
    case AnyString => true
  }

  /** text LIKE pattern ESCAPE '!'; None is the error an ill-formed escape raises. */
  ghost function Like(text: string, pattern: string): Option<bool>
  {
    var specs := Parse(pattern);
    if specs.None? then None else Some(Matches(text, specs.value))
  }

  /** An underscore stands for exactly one character, whichever it is. */
  lemma UnderscoreIsOneCharacter(text: string)
    ensures Like(text, "_") == Some(|text| == 1)
  {
    assert "_"[1..] == "";
    assert Parse("_") == Some([AnyChar] + []);
    var specs := [AnyChar] + [];
    assert specs[1..] == [];
    if |text| == 1 {
      assert text[..1] == text && text[1..] == "";
    }
    if cut :| 0 <= cut <= |text| && MatchesOne(text[..cut], specs[0]) && Matches(text[cut..], specs[1..]) {
      assert cut == |text| == 1;
    }
  }

  /** An escape character that precedes nothing special is an error. */
  lemma StrayEscapeIsError(c: char, rest: string, text: string)
    ensures Like(text, "!") == None
    ensures c !in {'!', '%', '_'} ==> Like(text, ['!', c] + rest) == None
  {
    assert (['!', c] + rest)[0] == '!' && (['!', c] + rest)[1] == c;
  }

  ghost predicate Contains(text: string, term: string)
  {
    exists at :: 0 <= at <= |text| && term <= text[at..]
  }

  // ---------- Proof ----------

  function Literals(term: string): seq<Specifier>
  {
    if term == "" then [] else [Literal(term[0])] + Literals(term[1..])
  }

  lemma {:induction false} ParseEscaped(term: string)
    ensures Parse(Escape(term) + "%") == Some(Literals(term) + [AnyString])
  {
    if term == "" {
      assert Escape(term) + "%" == "%";
      assert [AnyString] + Literals("") == [AnyString];
      assert Parse("%") == Prepend(AnyString, Parse(""));
      assert Literals(term) + [AnyString] == [AnyString];
    } else {
      ParseEscaped(term[1..]);
      var head := if Special(term[0]) then [ESCAPE, term[0]] else [term[0]];
      var whole := Escape(term) + "%";
      var rest := Escape(term[1..]) + "%";
      assert whole == head + rest && whole[|head|..] == rest;
      assert Parse(whole) == Prepend(Literal(term[0]), Parse(rest));
      assert Literals(term) + [AnyString] == [Literal(term[0])] + (Literals(term[1..]) + [AnyString]);
    }
  }

  lemma {:induction false} LiteralsThenAnything(text: string, term: string)
    ensures Matches(text, Literals(term) + [AnyString]) <==> term <= text
  {
    var specs := Literals(term) + [AnyString];
    if term == "" {
      assert specs[1..] == [] && text[|text|..] == "";
      assert MatchesOne(text[..|text|], specs[0]) && Matches(text[|text|..], specs[1..]);
    } else {
      assert specs[1..] == Literals(term[1..]) + [AnyString];
      if text != "" {
        LiteralsThenAnything(text[1..], term[1..]);
      }
      if Matches(text, specs) {
        var cut :| 0 <= cut <= |text| && MatchesOne(text[..cut], specs[0]) && Matches(text[cut..], specs[1..]);
        assert cut == 1 && text[0] == term[0];
        assert text == [text[0]] + text[1..] && term == [term[0]] + term[1..];
      }
      if term <= text {
        assert term[1..] <= text[1..];
        assert text[..1] == [term[0]] && MatchesOne(text[..1], specs[0]);
      }
    }
  }

  /** For every text and term: the escaped pattern is well formed and finds the term literally. */
  lemma SearchIsSubstring(text: string, term: string)
    ensures Like(text, SearchPattern(term)) == Some(Contains(text, term))
  {
    var specs := [AnyString] + (Literals(term) + [AnyString]);
    ParseEscaped(term);
    assert SearchPattern(term)[1..] == Escape(term) + "%";
    assert Parse(SearchPattern(term)) == Some(specs);
    assert specs[1..] == Literals(term) + [AnyString];
    if Matches(text, specs) {
      var cut :| 0 <= cut <= |text| && MatchesOne(text[..cut], specs[0]) && Matches(text[cut..], specs[1..]);
      LiteralsThenAnything(text[cut..], term);
    }
    if Contains(text, term) {
      var at :| 0 <= at <= |text| && term <= text[at..];
      LiteralsThenAnything(text[at..], term);
      assert MatchesOne(text[..at], specs[0]) && Matches(text[at..], specs[1..]);
    }
  }
}
