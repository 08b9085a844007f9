/** The "objects" parameter of a SecretProviderClass: a block sequence whose entries are
    literal block scalars (section 8.1.2 of YAML 1.2.2), written with a string builder. */
module ObjectsYaml {
  import opened GoStrings

  const EMPTY_ARRAY := "array: []\n"
  const ARRAY_LINE := "array:"
  const ENTRY_LINE := "  - |"
  const INDENT := "    "

  // ----- The text

  /** Every line followed by a newline. */
  function Lines(lines: seq<string>): string {
    if lines == [] then [] else lines[0] + "\n" + Lines(lines[1..])
  }

  function Indented(lines: seq<string>): (r: seq<string>)
    ensures |r| == |lines|
  {
    if lines == [] then [] else [INDENT + lines[0]] + Indented(lines[1..])
  }

  function EntryLines(element: string): seq<string> {
    [ENTRY_LINE] + Indented(Split(element, '\n'))
  }

  function BodyLines(elements: seq<string>): seq<string> {
    if elements == [] then [] else EntryLines(elements[0]) + BodyLines(elements[1..])
  }

  function ArrayText(elements: seq<string>): string {
    if elements == [] then EMPTY_ARRAY else Lines([ARRAY_LINE] + BodyLines(elements))
  }

  // ----- Taking the layout off again

  predicate IsIndented(line: string) {
    INDENT <= line
  }

  /** The leading run of indented lines. */
  function BlockLength(lines: seq<string>): (n: nat)
    ensures n <= |lines|
  {
    if lines == [] || !IsIndented(lines[0]) then 0 else 1 + BlockLength(lines[1..])
  }

  function Unindented(lines: seq<string>): seq<string> {
    if lines == [] then []
    else (if IsIndented(lines[0]) then [lines[0][|INDENT|..]] else [lines[0]]) + Unindented(lines[1..])
  }

  /** Each entry line starts a block of at least one indented line. */
  function UnframeBody(lines: seq<string>): Option<seq<string>>
    decreases |lines|
  {
    if lines == [] then Some([])
    else if lines[0] != ENTRY_LINE then None
    else
      var n := BlockLength(lines[1..]);
      if n == 0 then None
      else
        var element := Join(Unindented(lines[1..][..n]), '\n');
        match UnframeBody(lines[1..][n..])
        case Some(elements) => Some([element] + elements)
        case None => None
  }

  function Unframe(text: string): Option<seq<string>> {
    if text == EMPTY_ARRAY then Some([])
    else
      var lines := Split(text, '\n');
      if |lines| < 2 || lines[0] != ARRAY_LINE || lines[|lines| - 1] != "" then None
      else UnframeBody(lines[1..|lines| - 1])
  }

  lemma {:induction false} SplitLines(lines: seq<string>)
    requires forall l <- lines :: '\n' !in l
    ensures Split(Lines(lines), '\n') == lines + [""]
  {
    if lines != [] {
      SplitLines(lines[1..]);
      SplitFirst(lines[0], '\n', Lines(lines[1..]));
      assert Lines(lines) == lines[0] + ['\n'] + Lines(lines[1..]);
    }
  }

  lemma {:induction false} IndentedLines(lines: seq<string>)
    ensures forall l <- Indented(lines) :: IsIndented(l)
    ensures Unindented(Indented(lines)) == lines
    ensures (forall l <- lines :: '\n' !in l) ==> forall l <- Indented(lines) :: '\n' !in l
  {
    if lines != [] {
      IndentedLines(lines[1..]);
      assert (INDENT + lines[0])[|INDENT|..] == lines[0];
    }
  }

  lemma {:induction false} BlockStops(block: seq<string>, rest: seq<string>)
    requires forall l <- block :: IsIndented(l)
    requires rest == [] || !IsIndented(rest[0])
    ensures BlockLength(block + rest) == |block|
  {
    if block == [] {
      assert block + rest == rest;
    } else {
      assert (block + rest)[1..] == block[1..] + rest;
      BlockStops(block[1..], rest);
    }
  }

  lemma {:induction false} JoinSplit(s: string, sep: char)
    ensures Join(Split(s, sep), sep) == s
  {
    if s != [] {
      JoinSplit(s[1..], sep);
      var rest := Split(s[1..], sep);
      assert s == [s[0]] + s[1..];
      if s[0] == sep {
        assert ([[]] + rest)[1..] == rest;
      } else {
        var all := [[s[0]] + rest[0]] + rest[1..];
        assert all[1..] == rest[1..];
      }
    }
  }

  lemma {:induction false} BodyHasNoNewlines(elements: seq<string>)
    ensures forall l <- BodyLines(elements) :: '\n' !in l
  {
    if elements != [] {
      BodyHasNoNewlines(elements[1..]);
      SplitPartsAreClean(elements[0], '\n');
      IndentedLines(Split(elements[0], '\n'));
    }
  }

  lemma EntryLineIsNotIndented()
    ensures !IsIndented(ENTRY_LINE)
  {
    assert ENTRY_LINE[2] == '-' && INDENT[2] == ' ';
  }

  lemma UnframeEntry(block: seq<string>, rest: seq<string>)
    requires block != [] && forall l <- block :: IsIndented(l)
    requires rest == [] || !IsIndented(rest[0])
    requires UnframeBody(rest).Some?
    ensures UnframeBody([ENTRY_LINE] + (block + rest)) ==
            Some([Join(Unindented(block), '\n')] + UnframeBody(rest).value)
  {
    var lines := [ENTRY_LINE] + (block + rest);
    assert lines[1..] == block + rest;
    BlockStops(block, rest);
    assert (block + rest)[..|block|] == block && (block + rest)[|block|..] == rest;
  }

  function Block(element: string): seq<string> {
    Indented(Split(element, '\n'))
  }

  lemma BlockText(element: string)
    ensures Block(element) != [] && forall l <- Block(element) :: IsIndented(l)
    ensures Join(Unindented(Block(element)), '\n') == element
  {
    IndentedLines(Split(element, '\n'));
    JoinSplit(element, '\n');
  }

  lemma BodySplit(elements: seq<string>)
    requires elements != []
    ensures BodyLines(elements) == [ENTRY_LINE] + (Block(elements[0]) + BodyLines(elements[1..]))
  {}

  lemma {:induction false} UnframedBodyLines(elements: seq<string>)
    ensures UnframeBody(BodyLines(elements)) == Some(elements)
  {
    if elements != [] {
      UnframedBodyLines(elements[1..]);
      BodySplit(elements);
      BodyStartsWithEntry(elements[1..]);
      BlockText(elements[0]);
      UnframeEntry(Block(elements[0]), BodyLines(elements[1..]));
      assert elements == [elements[0]] + elements[1..];
    }
  }

  lemma BodyStartsWithEntry(elements: seq<string>)
    ensures BodyLines(elements) == [] || !IsIndented(BodyLines(elements)[0])
  {
    EntryLineIsNotIndented();
  }

  /** The layout keeps every element, multi-line ones and the empty list included. What YAML
      makes of the text is the subject of YamlBlocks. */
  lemma UnframedArrayText(elements: seq<string>)
    ensures Unframe(ArrayText(elements)) == Some(elements)
  {
    if elements != [] {
      var lines := [ARRAY_LINE] + BodyLines(elements);
      BodyHasNoNewlines(elements);
      assert '\n' !in ARRAY_LINE;
      SplitLines(lines);
      UnframedBodyLines(elements);
      assert (lines + [""])[1..|lines|] == BodyLines(elements);
      NotTheEmptyArray(lines);
    }
  }

  lemma NotTheEmptyArray(lines: seq<string>)
    requires lines != [] && lines[0] == ARRAY_LINE
    ensures Lines(lines) != EMPTY_ARRAY
  {
    assert Lines(lines)[6] == '\n' && EMPTY_ARRAY[6] == ' ';
  }

  /** Equal texts come from equal element lists. */
  lemma ArrayTextIsInjective(a: seq<string>, b: seq<string>)
    requires ArrayText(a) == ArrayText(b)
    ensures a == b
  {
    UnframedArrayText(a);
    UnframedArrayText(b);
  }

  // ----- The builder

  lemma {:induction false} LinesAppend(first: seq<string>, second: seq<string>)
    ensures Lines(first + second) == Lines(first) + Lines(second)
  {
    if first == [] {
      assert first + second == second;
    } else {
      assert (first + second)[1..] == first[1..] + second;
      LinesAppend(first[1..], second);
    }
  }

  lemma {:induction false} IndentedAppend(first: seq<string>, last: string)
    ensures Indented(first + [last]) == Indented(first) + [INDENT + last]
  {
    if first == [] {
      assert first + [last] == [last];
    } else {
      assert (first + [last])[1..] == first[1..] + [last];
      IndentedAppend(first[1..], last);
    }
  }

  lemma {:induction false} BodyAppend(first: seq<string>, last: string)
    ensures BodyLines(first + [last]) == BodyLines(first) + EntryLines(last)
  {
    if first == [] {
      assert first + [last] == [last];
    } else {
      assert (first + [last])[1..] == first[1..] + [last];
      BodyAppend(first[1..], last);
    }
  }

  function TrimmedElements(marshalled: seq<string>): (r: seq<string>)
    ensures |r| == |marshalled|
    ensures forall i :: 0 <= i < |r| ==> r[i] == TrimSuffix(marshalled[i], '\n')
  {
    seq(|marshalled|, i requires 0 <= i < |marshalled| => TrimSuffix(marshalled[i], '\n'))
  }

  /** buildObjectsArrayString, given what yaml.Marshal returned for each object. */
  method BuildObjectsArrayString(marshalled: seq<string>) returns (text: string)
    ensures text == ArrayText(TrimmedElements(marshalled))
  {
    ghost var wanted := TrimmedElements(marshalled);
    if |marshalled| == 0 {
      return EMPTY_ARRAY;
    }
    var elements: seq<string> := [];
    for i := 0 to |marshalled|
      invariant elements == wanted[..i]
    {
      elements := elements + [TrimSuffix(marshalled[i], '\n')];
    }
    assert elements == wanted;
    text := WriteElements(elements);
  }

  lemma NextLines(before: seq<string>, elements: seq<string>, i: nat) returns (after: seq<string>)
    requires i < |elements| && before == [ARRAY_LINE] + BodyLines(elements[..i])
    ensures after == before + EntryLines(elements[i])
    ensures after == [ARRAY_LINE] + BodyLines(elements[..i + 1])
  {
    assert elements[..i + 1] == elements[..i] + [elements[i]];
    BodyAppend(elements[..i], elements[i]);
    Associate([ARRAY_LINE], BodyLines(elements[..i]), EntryLines(elements[i]));
    after := before + EntryLines(elements[i]);
  }

  lemma Associate(a: seq<string>, b: seq<string>, c: seq<string>)
    ensures a + (b + c) == a + b + c
  {}

  /** The builder loop over the elements. */
  method WriteElements(elements: seq<string>) returns (text: string)
    ensures text == Lines([ARRAY_LINE] + BodyLines(elements))
  {
    text := "array:\n";
    LinesOne(ARRAY_LINE);
    ghost var before := [ARRAY_LINE];
    for i := 0 to |elements|
      invariant before == [ARRAY_LINE] + BodyLines(elements[..i])
      invariant text == Lines(before)
    {
      text := WriteElement(text, before, elements[i]);
      before := NextLines(before, elements, i);
    }
    assert elements[..|elements|] == elements;
  }

  lemma LinesOne(line: string)
    ensures Lines([line]) == line + "\n"
  {
    assert Lines([line]) == line + "\n" + Lines([]);
  }

  lemma NextLine(before: seq<string>, text: string, line: string)
    requires text == Lines(before)
    ensures text + line + "\n" == Lines(before + [line])
  {
    LinesAppend(before, [line]);
    LinesOne(line);
  }

  lemma NextIndented(start: seq<string>, lines: seq<string>, j: nat)
    requires j < |lines|
    ensures start + Indented(lines[..j]) + [INDENT + lines[j]] == start + Indented(lines[..j + 1])
  {
    assert lines[..j + 1] == lines[..j] + [lines[j]];
    IndentedAppend(lines[..j], lines[j]);
  }

  /** One round of it: the entry line, then each line of the element indented. */
  method WriteElement(text: string, ghost before: seq<string>, element: string) returns (r: string)
    requires text == Lines(before)
    ensures r == Lines(before + EntryLines(element))
  {
    ghost var start := before + [ENTRY_LINE];
    NextLine(before, text, ENTRY_LINE);
    r := text + "  - |" + "\n";
    r := WriteIndented(r, start, Split(element, '\n'));
    Associate(before, [ENTRY_LINE], Indented(Split(element, '\n')));
  }

  method WriteIndented(text: string, ghost start: seq<string>, lines: seq<string>) returns (r: string)
    requires text == Lines(start)
    ensures r == Lines(start + Indented(lines))
  {
    r := text;
    ghost var done := start;
    assert start + Indented(lines[..0]) == start;
    for j := 0 to |lines|
      invariant done == start + Indented(lines[..j])
      invariant r == Lines(done)
    {
      var line := "    " + lines[j];
      NextLine(done, r, line);
      NextIndented(start, lines, j);
      r := r + line + "\n";
      done := done + [line];
    }
    assert lines[..|lines|] == lines;
  }
}
