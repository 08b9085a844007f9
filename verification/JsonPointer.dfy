/** JSON Pointers (RFC 6901) as the controller writes them: the two ReplaceAll calls that
    escape a metadata key, and a reader for whole pointers. */
module JsonPointer {
  import opened GoStrings

  /** strings.ReplaceAll for a non-empty pattern: leftmost matches, no overlaps. */
  function ReplaceAll(s: string, pattern: string, replacement: string): string
    requires pattern != []
    decreases |s|
  {
    if s == [] then []
    else if pattern <= s then replacement + ReplaceAll(s[|pattern|..], pattern, replacement)
    else [s[0]] + ReplaceAll(s[1..], pattern, replacement)
  }

  /** The escape as the controller computes it: every "~" first, then every "/". */
  function EscapeToken(key: string): string {
    ReplaceAll(ReplaceAll(key, "~", "~0"), "/", "~1")
  }

  /** Section 4 of RFC 6901: "~1" becomes "/" first, then "~0" becomes "~". */
  function UnescapeToken(token: string): string {
    ReplaceAll(ReplaceAll(token, "~1", "/"), "~0", "~")
  }

  /** Section 3 of RFC 6901: "~" only occurs as part of "~0" or "~1". */
  predicate WellFormedToken(token: string) {
    if token == [] then true
    else if token[0] != '~' then WellFormedToken(token[1..])
    else |token| >= 2 && (token[1] == '0' || token[1] == '1') && WellFormedToken(token[2..])
  }

  // The escape, one character at a time

  function EscapeChar(c: char): string {
    if c == '~' then "~0" else if c == '/' then "~1" else [c]
  }

  function EscapeEach(s: string): string {
    if s == [] then [] else EscapeChar(s[0]) + EscapeEach(s[1..])
  }

  function TildesOnly(s: string): string {
    if s == [] then [] else (if s[0] == '~' then "~0" else [s[0]]) + TildesOnly(s[1..])
  }

  lemma {:induction false} TildePass(s: string)
    ensures ReplaceAll(s, "~", "~0") == TildesOnly(s)
  {
    if s != [] {
      TildePass(s[1..]);
    }
  }

  lemma {:induction false} SlashPass(s: string)
    ensures ReplaceAll(TildesOnly(s), "/", "~1") == EscapeEach(s)
  {
    if s != [] {
      SlashPass(s[1..]);
      var rest := TildesOnly(s[1..]);
      if s[0] == '~' {
        var t := TildesOnly(s);
        assert t == "~0" + rest && t[1..] == "0" + rest && t[1..][1..] == rest;
        assert t[0] == '~' && t[1..][0] == '0';
        assert !("/" <= t) && !("/" <= t[1..]);
        assert ReplaceAll(t[1..], "/", "~1") == "0" + ReplaceAll(rest, "/", "~1");
      } else {
        assert TildesOnly(s)[1..] == rest;
      }
    }
  }

  /** Escaping "~" before "/" is what makes the two passes equal one pass over the
      characters; the other order would escape the "~" of every "~1" again. */
  lemma EscapeIsPerCharacter(s: string)
    ensures EscapeToken(s) == EscapeEach(s)
  {
    TildePass(s);
    SlashPass(s);
  }

  lemma {:induction false} UnescapeSlashes(s: string)
    ensures ReplaceAll(EscapeEach(s), "~1", "/") == TildesOnly(s)
  {
    if s != [] {
      UnescapeSlashes(s[1..]);
      var t, rest := EscapeEach(s), EscapeEach(s[1..]);
      if s[0] == '~' {
        assert t == "~0" + rest && t[1..] == "0" + rest && t[1..][1..] == rest;
        assert t[1] == '0';
        assert !("~1" <= t) && !("~1" <= t[1..]);
        assert ReplaceAll(t[1..], "~1", "/") == "0" + ReplaceAll(rest, "~1", "/");
      } else if s[0] == '/' {
        assert t[2..] == rest;
      } else {
        assert t[1..] == rest;
        assert !("~1" <= t);
      }
    }
  }

  lemma {:induction false} UnescapeTildes(s: string)
    ensures ReplaceAll(TildesOnly(s), "~0", "~") == s
  {
    if s != [] {
      UnescapeTildes(s[1..]);
      var t, rest := TildesOnly(s), TildesOnly(s[1..]);
      assert s == [s[0]] + s[1..];
      if s[0] == '~' {
        assert t[2..] == rest;
      } else {
        assert t[1..] == rest;
        assert !("~0" <= t);
      }
    }
  }

  lemma {:induction false} EscapedText(s: string)
    ensures '/' !in EscapeEach(s)
    ensures WellFormedToken(EscapeEach(s))
  {
    if s != [] {
      EscapedText(s[1..]);
      var t, rest := EscapeEach(s), EscapeEach(s[1..]);
      if s[0] == '~' || s[0] == '/' {
        assert t[2..] == rest;
      } else {
        assert t[1..] == rest;
      }
    }
  }

  /** The escape is a well-formed token without "/", and decoding gives the key back. */
  lemma EscapeRoundTrip(key: string)
    ensures UnescapeToken(EscapeToken(key)) == key
    ensures '/' !in EscapeToken(key)
    ensures WellFormedToken(EscapeToken(key))
  {
    EscapeIsPerCharacter(key);
    UnescapeSlashes(key);
    UnescapeTildes(key);
    EscapedText(key);
  }

  lemma EscapeIsInjective(a: string, b: string)
    requires EscapeToken(a) == EscapeToken(b)
    ensures a == b
  {
    EscapeRoundTrip(a);
    EscapeRoundTrip(b);
  }

  // ----- Whole pointers

  predicate AllWellFormed(tokens: seq<string>) {
    forall t <- tokens :: WellFormedToken(t)
  }

  function UnescapeAll(tokens: seq<string>): (keys: seq<string>)
    ensures |keys| == |tokens|
    ensures forall i :: 0 <= i < |tokens| ==> keys[i] == UnescapeToken(tokens[i])
  {
    seq(|tokens|, i requires 0 <= i < |tokens| => UnescapeToken(tokens[i]))
  }

  /** Sections 3 and 4 of RFC 6901: the reference tokens of a pointer, or None when the
      text is no pointer. */
  function ParsePointer(pointer: string): Option<seq<string>> {
    if pointer == [] then Some([])
    else if pointer[0] != '/' then None
    else
      var tokens := Split(pointer[1..], '/');
      if AllWellFormed(tokens) then Some(UnescapeAll(tokens)) else None
  }

  lemma {:induction false} PlainToken(s: string)
    requires '~' !in s
    ensures UnescapeToken(s) == s
    ensures WellFormedToken(s)
  {
    PlainReplace(s, "~1", "/");
    PlainReplace(s, "~0", "~");
    if s != [] {
      PlainToken(s[1..]);
    }
  }

  lemma {:induction false} PlainReplace(s: string, pattern: string, replacement: string)
    requires pattern != [] && pattern[0] !in s
    ensures ReplaceAll(s, pattern, replacement) == s
  {
    if s != [] {
      PlainReplace(s[1..], pattern, replacement);
      assert s == [s[0]] + s[1..];
    }
  }

  predicate PlainName(s: string) {
    '/' !in s && '~' !in s
  }

  /** A pointer of two plain names. */
  lemma PlainPointer(first: string, second: string)
    requires PlainName(first) && PlainName(second)
    ensures ParsePointer("/" + first + "/" + second) == Some([first, second])
  {
    var pointer := "/" + first + "/" + second;
    assert pointer[1..] == first + ['/'] + second;
    SplitFirst(first, '/', second);
    SplitNoSeparator(second, '/');
    var tokens := Split(pointer[1..], '/');
    assert tokens == [first, second];
    PlainToken(first);
    PlainToken(second);
    assert UnescapeAll(tokens) == tokens;
  }

  /** A pointer that ends in an escaped key names exactly the key it was built from. */
  lemma EntryPointer(first: string, second: string, key: string)
    requires PlainName(first) && PlainName(second)
    ensures ParsePointer("/" + first + "/" + second + "/" + EscapeToken(key)) == Some([first, second, key])
  {
    var token := EscapeToken(key);
    EscapeRoundTrip(key);
    PlainToken(first);
    PlainToken(second);
    TokensOfPointer(first, second, token);
    assert UnescapeAll([first, second, token]) == [first, second, key];
  }

  lemma SplitThree(first: string, second: string, token: string)
    requires '/' !in first && '/' !in second && '/' !in token
    ensures Split(("/" + first + "/" + second + "/" + token)[1..], '/') == [first, second, token]
  {
    var pointer := "/" + first + "/" + second + "/" + token;
    var tail := second + ['/'] + token;
    assert pointer[1..] == first + ['/'] + tail;
    SplitFirst(first, '/', tail);
    SplitFirst(second, '/', token);
    SplitNoSeparator(token, '/');
    assert [first] + ([second] + [token]) == [first, second, token];
  }

  lemma TokensOfPointer(first: string, second: string, token: string)
    requires '/' !in first && '/' !in second && '/' !in token
    requires WellFormedToken(first) && WellFormedToken(second) && WellFormedToken(token)
    ensures ParsePointer("/" + first + "/" + second + "/" + token) == Some(UnescapeAll([first, second, token]))
  {
    SplitThree(first, second, token);
    assert AllWellFormed([first, second, token]);
    assert ("/" + first + "/" + second + "/" + token)[0] == '/';
  }

  // ----- The two escapes by name

  lemma {:induction false} EscapeEachConcat(a: string, b: string)
    ensures EscapeEach(a + b) == EscapeEach(a) + EscapeEach(b)
  {
    if a == [] {
      assert a + b == b;
    } else {
      assert (a + b)[1..] == a[1..] + b;
      EscapeEachConcat(a[1..], b);
    }
  }

  lemma OneCharacter(c: char)
    ensures EscapeEach([c]) == EscapeChar(c)
  {
    assert [c][1..] == [];
  }

  /** Section 3 of RFC 6901 for the writer: "~" is written "~0" and "/" is written "~1", and
      nothing else changes. */
  lemma EscapesByName(before: string, c: char, after: string)
    ensures EscapeToken(before + [c] + after) ==
            EscapeToken(before) + (if c == '~' then "~0" else if c == '/' then "~1" else [c]) + EscapeToken(after)
    ensures EscapeToken("") == ""
  {
    EscapeIsPerCharacter(before + [c] + after);
    EscapeIsPerCharacter(before);
    EscapeIsPerCharacter(after);
    EscapeEachConcat(before + [c], after);
    EscapeEachConcat(before, [c]);
    OneCharacter(c);
  }

  /** And for the reader, on texts of plain characters: section 5 of RFC 6901 has such examples. */
  lemma UnescapesByName(before: string, after: string)
    requires PlainName(before) && PlainName(after)
    ensures UnescapeToken(before + "~1" + after) == before + "/" + after
    ensures UnescapeToken(before + "~0" + after) == before + "~" + after
  {
    EscapesByName(before, '/', after);
    EscapesByName(before, '~', after);
    PlainReplace(before, "~", "~0");
    PlainReplace(before, "/", "~1");
    PlainReplace(after, "~", "~0");
    PlainReplace(after, "/", "~1");
    EscapeRoundTrip(before + ['/'] + after);
    EscapeRoundTrip(before + ['~'] + after);
    assert before + ['/'] + after == before + "/" + after && before + ['~'] + after == before + "~" + after;
  }
}
