/** A reader of the "objects" parameter after YAML 1.2.2: a mapping with the one key "array",
    whose value is a block sequence of literal scalars with a bare "|" header. Sections 8.1.1.1
    (indentation is detected), 8.1.1.2 (final line breaks are clipped), 8.1.2 and 8.2.1. */
module YamlBlocks {
  import opened GoStrings
  import opened ObjectsYaml

  /** nb-char of section 5.4: printable and neither a line break nor a byte order mark. */
  predicate IsText(c: char) {
    var n := c as int;
    n == 9 || 0x20 <= n <= 0x7E || n == 0x85 || 0xA0 <= n <= 0xD7FF ||
    (0xE000 <= n <= 0xFFFD && n != 0xFEFF) || 0x10000 <= n
  }

  predicate IsPlain(line: string) {
    forall c <- line :: IsText(c)
  }

  predicate AllPlain(lines: seq<string>) {
    forall l <- lines :: IsPlain(l)
  }

  /** The number of leading spaces. */
  function Indent(line: string): (n: nat)
    ensures n <= |line|
  {
    if line != [] && line[0] == ' ' then 1 + Indent(line[1..]) else 0
  }

  predicate IsBlank(line: string) {
    Indent(line) == |line|
  }

  predicate IsComment(line: string) {
    !IsBlank(line) && line[Indent(line)] == '#'
  }

  // ----- One literal scalar

  /** The column of the "-" indicators: content must stand further to the right. */
  const PARENT := 2

  function FirstText(lines: seq<string>): (i: nat)
    ensures i <= |lines|
    ensures i < |lines| ==> !IsBlank(lines[i])
    ensures forall j :: 0 <= j < i ==> IsBlank(lines[j])
  {
    if lines == [] || !IsBlank(lines[0]) then 0 else 1 + FirstText(lines[1..])
  }

  /** The longest of the leading blank lines. */
  function LongestBlank(lines: seq<string>): (n: nat)
    ensures forall j :: 0 <= j < FirstText(lines) ==> |lines[j]| <= n
  {
    if lines == [] || !IsBlank(lines[0]) then 0
    else
      var n := LongestBlank(lines[1..]);
      if |lines[0]| > n then |lines[0]| else n
  }

  /** The scalar has a line of text: the first line that is not blank is indented. */
  predicate HasText(lines: seq<string>) {
    var i := FirstText(lines);
    i < |lines| && Indent(lines[i]) > PARENT
  }

  function ContentIndent(lines: seq<string>): (n: nat)
    ensures n > PARENT
  {
    if HasText(lines) then Indent(lines[FirstText(lines)])
    else if LongestBlank(lines) > PARENT then LongestBlank(lines) else PARENT + 1
  }

  /** The lines that belong to the scalar: blank ones and those indented far enough. */
  function Taken(lines: seq<string>, indent: nat): (n: nat)
    ensures n <= |lines|
    ensures forall j :: 0 <= j < n ==> IsBlank(lines[j]) || Indent(lines[j]) >= indent
  {
    if lines == [] || !(IsBlank(lines[0]) || Indent(lines[0]) >= indent) then 0
    else 1 + Taken(lines[1..], indent)
  }

  function Content(line: string, indent: nat): string {
    if |line| <= indent then "" else line[indent..]
  }

  function Contents(lines: seq<string>, indent: nat): (r: seq<string>)
    ensures |r| == |lines|
  {
    if lines == [] then [] else [Content(lines[0], indent)] + Contents(lines[1..], indent)
  }

  /** Every line with its line break, but no empty lines at the end. */
  function Clip(lines: seq<string>): string {
    if lines == [] then ""
    else
      var rest := Clip(lines[1..]);
      if rest == "" && lines[0] == "" then "" else lines[0] + "\n" + rest
  }

  datatype Scalar = Scalar(value: string, used: nat)

  /** It is an error for a leading blank line to be longer than the content indentation. */
  function ReadScalar(lines: seq<string>): (r: Option<Scalar>)
    ensures r.Some? ==> r.value.used <= |lines|
  {
    var indent := ContentIndent(lines);
    if LongestBlank(lines) > indent then None
    else
      var used := Taken(lines, indent);
      Some(Scalar(Clip(Contents(lines[..used], indent)), used))
  }

  // ----- The whole text

  /** Blank lines and comments between entries are skipped; anything but an entry is an error. */
  function ReadEntries(lines: seq<string>): Option<seq<string>>
    decreases |lines|
  {
    if lines == [] then Some([])
    else if IsBlank(lines[0]) || IsComment(lines[0]) then ReadEntries(lines[1..])
    else if lines[0] != "  - |" then None
    else match ReadScalar(lines[1..])
      case None => None
      case Some(scalar) =>
        match ReadEntries(lines[1..][scalar.used..])
        case Some(values) => Some([scalar.value] + values)
        case None => None
  }

  /** The values of the array; a key without a value is null and not an array. */
  function ReadObjects(text: string): Option<seq<string>> {
    if text == "array: []\n" then Some([])
    else
      var lines := Split(text, '\n');
      if |lines| < 2 || lines[0] != "array:" || lines[|lines| - 1] != "" then None
      else if !AllPlain(lines) then None
      else
        var values := ReadEntries(lines[1..|lines| - 1]);
        if values == Some([]) then None else values
  }

  // ----- Which elements come back

  /** The first line that is not empty does not begin with a space. */
  predicate StartsFlush(lines: seq<string>) {
    lines != [] && if lines[0] == "" then StartsFlush(lines[1..]) else lines[0][0] != ' '
  }

  predicate EndsInText(lines: seq<string>) {
    lines != [] && lines[|lines| - 1] != ""
  }

  /** Texts that survive: printable, the first line with text not indented, no empty line at
      the end. */
  predicate Readable(element: string) {
    var lines := Split(element, '\n');
    AllPlain(lines) && StartsFlush(lines) && EndsInText(lines)
  }

  lemma OneSpace(line: string)
    ensures Indent([' '] + line) == 1 + Indent(line)
  {
    assert ([' '] + line)[1..] == line;
  }

  lemma IndentOfIndented(line: string)
    ensures Indent(INDENT + line) == 4 + Indent(line)
    ensures IsBlank(INDENT + line) <==> IsBlank(line)
  {
    var a := [' '] + line;
    var b := [' '] + a;
    var c := [' '] + b;
    OneSpace(line);
    OneSpace(a);
    OneSpace(b);
    OneSpace(c);
    assert INDENT + line == [' '] + c;
  }

  lemma ContentOfIndented(line: string, indent: nat)
    ensures indent >= 4 ==> |Content(INDENT + line, indent)| <= |line|
    ensures Content(INDENT + line, 4) == line
  {
    if line != "" {
      assert (INDENT + line)[4..] == line;
    }
  }

  lemma {:induction false} ClipSize(lines: seq<string>)
    ensures |Clip(lines)| <= |Lines(lines)|
    ensures EndsInText(lines) ==> Clip(lines) == Lines(lines)
    ensures lines != [] && !EndsInText(lines) ==> |Clip(lines)| < |Lines(lines)|
  {
    if |lines| == 1 {
      assert lines[1..] == [];
    } else if lines != [] {
      ClipSize(lines[1..]);
    }
  }

  lemma {:induction false} ClipBlank(lines: seq<string>)
    requires forall l <- lines :: l == ""
    ensures Clip(lines) == ""
  {
    if lines != [] {
      assert lines[0] in lines && forall l <- lines[1..] :: l in lines;
      ClipBlank(lines[1..]);
    }
  }

  lemma {:induction false} LinesOfSplit(s: string)
    ensures Lines(Split(s, '\n')) == s + "\n"
  {
    if s == "" {
      assert Split(s, '\n')[1..] == [];
    } else {
      LinesOfSplit(s[1..]);
      var rest := Split(s[1..], '\n');
      assert s == [s[0]] + s[1..];
      if s[0] == '\n' {
        assert ([[]] + rest)[1..] == rest;
      } else {
        assert ([[s[0]] + rest[0]] + rest[1..])[1..] == rest[1..];
        assert [s[0]] + rest[0] + "\n" + Lines(rest[1..]) == [s[0]] + (rest[0] + "\n" + Lines(rest[1..]));
      }
    }
  }

  // ----- A block of indented lines, and what stops it

  /** What follows an element's block: the next entry, or nothing. */
  predicate Stops(rest: seq<string>) {
    rest == [] || rest[0] == ENTRY_LINE
  }

  lemma EntryLineStands()
    ensures Indent(ENTRY_LINE) == PARENT && !IsBlank(ENTRY_LINE) && !IsComment(ENTRY_LINE)
  {
    assert ENTRY_LINE[1..][1..] == "- |" && ENTRY_LINE[1..] == " - |";
    assert Indent("- |") == 0;
  }

  lemma IndentedFirst(lines: seq<string>, rest: seq<string>)
    requires lines != []
    ensures (Indented(lines) + rest)[0] == INDENT + lines[0]
    ensures (Indented(lines) + rest)[1..] == Indented(lines[1..]) + rest
  {}

  lemma {:induction false} TakenOf(lines: seq<string>, rest: seq<string>, indent: nat)
    requires Stops(rest) && indent > PARENT
    ensures Taken(Indented(lines) + rest, indent) <= |lines|
    ensures indent == 4 ==> Taken(Indented(lines) + rest, indent) == |lines|
  {
    if lines == [] {
      EntryLineStands();
      assert Indented(lines) + rest == rest;
    } else {
      IndentedFirst(lines, rest);
      IndentOfIndented(lines[0]);
      TakenOf(lines[1..], rest, indent);
    }
  }

  lemma {:induction false} ContentsSize(lines: seq<string>, rest: seq<string>, indent: nat, n: nat)
    requires indent >= 4 && n <= |lines|
    ensures |Lines(Contents((Indented(lines) + rest)[..n], indent))| <= |Lines(lines)|
    ensures n < |lines| ==> |Lines(Contents((Indented(lines) + rest)[..n], indent))| < |Lines(lines)|
  {
    if n > 0 {
      var all := Indented(lines) + rest;
      IndentedFirst(lines, rest);
      ContentOfIndented(lines[0], indent);
      assert all[..n][1..] == all[1..][..n - 1];
      ContentsSize(lines[1..], rest, indent, n - 1);
    }
  }

  lemma {:induction false} ContentsExact(lines: seq<string>, rest: seq<string>)
    ensures Contents((Indented(lines) + rest)[..|lines|], 4) == lines
  {
    if lines != [] {
      var all := Indented(lines) + rest;
      IndentedFirst(lines, rest);
      ContentOfIndented(lines[0], 4);
      assert all[..|lines|][1..] == all[1..][..|lines| - 1];
      ContentsExact(lines[1..], rest);
    }
  }

  /** How the block looks to the indentation detection. */
  lemma {:induction false} Detection(lines: seq<string>, rest: seq<string>)
    requires Stops(rest)
    ensures var all := Indented(lines) + rest;
            var i := FirstText(all);
            i <= |lines| && (HasText(all) <==> i < |lines|) && (HasText(all) ==> Indent(all[i]) >= 4) &&
            (LongestBlank(all) >= 4 || i == 0)
  {
    var all := Indented(lines) + rest;
    if lines == [] {
      EntryLineStands();
      assert all == rest;
    } else {
      IndentedFirst(lines, rest);
      IndentOfIndented(lines[0]);
      Detection(lines[1..], rest);
    }
  }

  /** The builder's four columns are detected. */
  ghost predicate Detected(all: seq<string>) {
    HasText(all) && Indent(all[FirstText(all)]) == 4 && LongestBlank(all) <= 4
  }

  lemma {:induction false} FlushIsDetected(lines: seq<string>, rest: seq<string>)
    requires Stops(rest)
    ensures StartsFlush(lines) <==> Detected(Indented(lines) + rest)
  {
    if lines == [] {
      EntryLineStands();
      assert Indented(lines) + rest == rest;
    } else {
      IndentedFirst(lines, rest);
      IndentOfIndented(lines[0]);
      FlushIsDetected(lines[1..], rest);
    }
  }

  lemma ReadableBlock(element: string, rest: seq<string>)
    requires Stops(rest) && Readable(element)
    ensures ReadScalar(Block(element) + rest) == Some(Scalar(element + "\n", |Block(element)|))
  {
    var lines := Split(element, '\n');
    FlushIsDetected(lines, rest);
    TakenOf(lines, rest, 4);
    ContentsExact(lines, rest);
    ClipSize(lines);
    LinesOfSplit(element);
  }

  /** Detection found the builder's four columns, or something is lost. */
  lemma {:induction false} DeeperLosesText(lines: seq<string>, rest: seq<string>, indent: nat, n: nat)
    requires indent > 4 && n <= |lines|
    requires FirstText(Indented(lines) + rest) < |lines|
    requires Indent((Indented(lines) + rest)[FirstText(Indented(lines) + rest)]) >= indent
    ensures |Lines(Contents((Indented(lines) + rest)[..n], indent))| < |Lines(lines)|
  {
    var all := Indented(lines) + rest;
    if n < |lines| {
      ContentsSize(lines, rest, indent, n);
    } else {
      IndentedFirst(lines, rest);
      assert all[..n][1..] == all[1..][..n - 1];
      ContentOfIndented(lines[0], indent);
      if IsBlank(all[0]) {
        DeeperLosesText(lines[1..], rest, indent, n - 1);
      } else {
        ContentsSize(lines[1..], rest, indent, n - 1);
        assert |lines[0]| > 0;
        assert |Content(all[0], indent)| < |lines[0]|;
      }
    }
  }

  lemma {:induction false} AllBlankContents(lines: seq<string>, indent: nat)
    requires forall l <- lines :: |l| <= indent
    ensures forall l <- Contents(lines, indent) :: l == ""
  {
    if lines != [] {
      assert lines[0] in lines;
      AllBlankContents(lines[1..], indent);
    }
  }

  /** An element that is not readable is refused or comes back shorter. */
  lemma UnreadableBlock(element: string, rest: seq<string>)
    requires Stops(rest) && AllPlain(Split(element, '\n')) && !Readable(element)
    ensures var r := ReadScalar(Block(element) + rest);
            r.Some? ==> |r.value.value| < |element| + 1
  {
    var lines := Split(element, '\n');
    var all := Indented(lines) + rest;
    var indent := ContentIndent(all);
    Detection(lines, rest);
    FlushIsDetected(lines, rest);
    LinesOfSplit(element);
    var n := Taken(all, indent);
    TakenOf(lines, rest, indent);
    var texts := Contents(all[..n], indent);
    ClipSize(texts);
    if LongestBlank(all) <= indent {
      if !HasText(all) {
        forall l | l in all[..n]
          ensures |l| <= indent
        {
          var j :| 0 <= j < n && all[j] == l;
        }
        AllBlankContents(all[..n], indent);
        ClipBlank(texts);
      } else if indent > 4 {
        DeeperLosesText(lines, rest, indent, n);
      } else {
        ContentsExact(lines, rest);
      }
    }
  }

  // ----- The round trip

  /** The values as YAML sees them: the final line break belongs to the scalar. */
  function WithBreaks(elements: seq<string>): (r: seq<string>)
    ensures |r| == |elements|
  {
    if elements == [] then [] else [elements[0] + "\n"] + WithBreaks(elements[1..])
  }

  predicate PlainElements(elements: seq<string>) {
    forall e <- elements :: AllPlain(Split(e, '\n'))
  }

  lemma ReadOneEntry(element: string, rest: seq<string>)
    requires Stops(rest)
    ensures ReadEntries([ENTRY_LINE] + (Block(element) + rest)) ==
            match ReadScalar(Block(element) + rest)
            case None => None
            case Some(scalar) =>
              match ReadEntries((Block(element) + rest)[scalar.used..])
              case Some(values) => Some([scalar.value] + values)
              case None => None
  {
    EntryLineStands();
    assert ([ENTRY_LINE] + (Block(element) + rest))[1..] == Block(element) + rest;
  }

  lemma EntriesStep(element: string, rest: seq<string>, values: seq<string>)
    requires Stops(rest) && AllPlain(Split(element, '\n'))
    ensures ReadEntries([ENTRY_LINE] + (Block(element) + rest)) == Some([element + "\n"] + values) <==>
            Readable(element) && ReadEntries(rest) == Some(values)
  {
    ReadOneEntry(element, rest);
    if Readable(element) {
      ReadableBlock(element, rest);
      assert (Block(element) + rest)[|Block(element)|..] == rest;
      if ReadEntries(rest).Some? {
        SameTail(element + "\n", ReadEntries(rest).value, values);
      }
    } else {
      UnreadableBlock(element, rest);
      var r := ReadScalar(Block(element) + rest);
      if r.Some? {
        var tail := ReadEntries((Block(element) + rest)[r.value.used..]);
        if tail.Some? {
          assert ([r.value.value] + tail.value)[0] != ([element + "\n"] + values)[0];
        }
      }
    }
  }

  lemma SameTail(head: string, a: seq<string>, b: seq<string>)
    ensures [head] + a == [head] + b <==> a == b
  {
    assert ([head] + a)[1..] == a && ([head] + b)[1..] == b;
  }

  lemma {:induction false} EntriesRoundTrip(elements: seq<string>)
    requires PlainElements(elements)
    ensures ReadEntries(BodyLines(elements)) == Some(WithBreaks(elements)) <==> forall e <- elements :: Readable(e)
  {
    if elements != [] {
      var e, rest := elements[0], elements[1..];
      assert elements == [e] + rest;
      EntriesRoundTrip(rest);
      BodySplit(elements);
      EntriesStep(e, BodyLines(rest), WithBreaks(rest));
    }
  }

  lemma PlainConcat(a: seq<string>, b: seq<string>)
    ensures AllPlain(a + b) <==> AllPlain(a) && AllPlain(b)
  {
    assert forall l <- a :: l in a + b;
    assert forall l <- b :: l in a + b;
  }

  lemma PlainConstants()
    ensures IsPlain(INDENT) && IsPlain(ENTRY_LINE) && IsPlain(ARRAY_LINE) && IsPlain("")
  {}

  lemma {:induction false} IndentedPlain(lines: seq<string>)
    ensures AllPlain(Indented(lines)) <==> AllPlain(lines)
  {
    if lines != [] {
      IndentedPlain(lines[1..]);
      PlainConstants();
      assert IsPlain(INDENT + lines[0]) <==> IsPlain(lines[0]) by {
        assert forall c <- lines[0] :: c in INDENT + lines[0];
      }
      PlainConcat([INDENT + lines[0]], Indented(lines[1..]));
      PlainConcat([lines[0]], lines[1..]);
      assert lines == [lines[0]] + lines[1..];
    }
  }

  lemma {:induction false} BodyPlain(elements: seq<string>)
    ensures AllPlain(BodyLines(elements)) <==> PlainElements(elements)
  {
    if elements != [] {
      var block, rest := Block(elements[0]), BodyLines(elements[1..]);
      BodyPlain(elements[1..]);
      BodySplit(elements);
      IndentedPlain(Split(elements[0], '\n'));
      PlainConstants();
      PlainConcat([ENTRY_LINE], block + rest);
      PlainConcat(block, rest);
      assert elements == [elements[0]] + elements[1..];
    }
  }

  lemma ReadOfArrayText(elements: seq<string>)
    requires elements != []
    ensures ReadObjects(ArrayText(elements)) ==
            if !PlainElements(elements) || ReadEntries(BodyLines(elements)) == Some([]) then None
            else ReadEntries(BodyLines(elements))
  {
    var body := BodyLines(elements);
    var lines := [ARRAY_LINE] + body;
    BodyHasNoNewlines(elements);
    assert '\n' !in ARRAY_LINE;
    SplitLines(lines);
    NotTheEmptyArray(lines);
    assert (lines + [""])[1..|lines|] == body;
    PlainConstants();
    PlainConcat(lines, [""]);
    PlainConcat([ARRAY_LINE], body);
    BodyPlain(elements);
  }

  /** Reading the generated text gives every element back, with its final line break, exactly
      when all elements are readable. */
  lemma ArrayRoundTrip(elements: seq<string>)
    ensures ReadObjects(ArrayText(elements)) == Some(WithBreaks(elements)) <==> forall e <- elements :: Readable(e)
  {
    if elements != [] {
      ReadOfArrayText(elements);
      if PlainElements(elements) {
        EntriesRoundTrip(elements);
      }
    }
  }

  lemma {:induction false} BreaksOfTrimmed(marshalled: seq<string>)
    requires forall m <- marshalled :: m != "" && m[|m| - 1] == '\n'
    ensures WithBreaks(TrimmedElements(marshalled)) == marshalled
  {
    if marshalled != [] {
      var trimmed := TrimmedElements(marshalled);
      assert trimmed[1..] == TrimmedElements(marshalled[1..]);
      BreaksOfTrimmed(marshalled[1..]);
      var m := marshalled[0];
      assert m in marshalled;
      assert TrimSuffix(m, '\n') + "\n" == m;
    }
  }

  lemma TrimmedReadable(marshalled: seq<string>)
    ensures (forall e <- TrimmedElements(marshalled) :: Readable(e)) <==>
            forall m <- marshalled :: Readable(TrimSuffix(m, '\n'))
  {
    var elements := TrimmedElements(marshalled);
    if forall m <- marshalled :: Readable(TrimSuffix(m, '\n')) {
      forall e | e in elements
        ensures Readable(e)
      {
        var i :| 0 <= i < |elements| && elements[i] == e;
        assert marshalled[i] in marshalled;
      }
    }
    if forall e <- elements :: Readable(e) {
      forall m | m in marshalled
        ensures Readable(TrimSuffix(m, '\n'))
      {
        var i :| 0 <= i < |marshalled| && marshalled[i] == m;
        assert elements[i] in elements;
      }
    }
  }

  /** In terms of what the library marshalled, each text ending in its line break: the driver
      reads exactly those texts, if and only if they are readable without the break. */
  lemma MarshalledRoundTrip(marshalled: seq<string>)
    requires forall m <- marshalled :: m != "" && m[|m| - 1] == '\n'
    ensures ReadObjects(ArrayText(TrimmedElements(marshalled))) == Some(marshalled) <==>
            forall m <- marshalled :: Readable(TrimSuffix(m, '\n'))
  {
    BreaksOfTrimmed(marshalled);
    ArrayRoundTrip(TrimmedElements(marshalled));
    TrimmedReadable(marshalled);
  }

  lemma SplitTwo(first: string, second: string)
    requires '\n' !in first && '\n' !in second
    ensures Split(first + "\n" + second, '\n') == [first, second]
  {
    SplitFirst(first, '\n', second);
    SplitNoSeparator(second, '\n');
  }

  lemma NotAnEntry(line: string)
    requires !IsBlank(line) && !IsComment(line)
    ensures ReadEntries([INDENT + line]) == None
  {
    IndentOfIndented(line);
    assert (INDENT + line)[4 + Indent(line)] == line[Indent(line)];
    assert (INDENT + line)[2] == ' ' && ENTRY_LINE[2] == '-';
  }

  /** An element whose first line is indented further than its second: the second ends the
      scalar at a place where only an entry may begin, and the whole text is refused. */
  lemma MisindentedIsRefused(first: string, second: string)
    requires '\n' !in first && '\n' !in second
    requires !IsBlank(first) && !IsBlank(second) && !IsComment(second) && Indent(second) < Indent(first)
    ensures ReadObjects(ArrayText([first + "\n" + second])) == None
  {
    var element := first + "\n" + second;
    SplitTwo(first, second);
    ReadOfArrayText([element]);
    BodySplit([element]);
    assert [element][1..] == [];
    ReadOneEntry(element, []);
    var block := [INDENT + first, INDENT + second];
    assert Indented([first, second][1..]) == [INDENT + second];
    assert Block(element) + [] == block;
    IndentOfIndented(first);
    IndentOfIndented(second);
    assert block[1..] == [INDENT + second];
    assert Taken(block, Indent(INDENT + first)) == 1;
    NotAnEntry(second);
  }

  lemma PlainJoin(a: string, b: string)
    requires IsPlain(a) && IsPlain(b)
    ensures IsPlain(a + b)
  {}

  lemma PlainFields()
    ensures IsPlain("objectName: ") && IsPlain("objectType: secret")
    ensures '\n' !in "objectName: " && '\n' !in "objectType: secret"
  {}

  /** What the library writes for a secret with a plain name is readable. */
  lemma UsualElementIsReadable(name: string)
    requires IsPlain(name) && '\n' !in name
    ensures Readable("objectName: " + name + "\n" + "objectType: secret")
  {
    var first, second := "objectName: " + name, "objectType: secret";
    PlainFields();
    PlainJoin("objectName: ", name);
    SplitTwo(first, second);
    assert first[0] == 'o';
    ReadableTwo(first, second);
  }

  lemma ReadableTwo(first: string, second: string)
    requires Split(first + "\n" + second, '\n') == [first, second]
    requires IsPlain(first) && IsPlain(second) && first != "" && first[0] != ' ' && second != ""
    ensures Readable(first + "\n" + second)
  {}
}
