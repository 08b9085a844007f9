/** The objects list of annotation mode: generated from the vault, printed, and compared as
    text with what is stored. */
module VaultObjects {
  import opened GoStrings
  import opened ObjectsYaml
  import opened YamlBlocks

  datatype VaultObject = VaultObject(objectName: string, objectType: string, objectVersion: string)

  function NameOf(o: VaultObject): string { o.objectName }

  function Typed(names: seq<string>, objectType: string): (r: seq<VaultObject>)
    ensures |r| == |names|
    ensures forall i :: 0 <= i < |r| ==> r[i] == VaultObject(names[i], objectType, "")
  {
    seq(|names|, i requires 0 <= i < |names| => VaultObject(names[i], objectType, ""))
  }

  function Generated(secrets: seq<string>, certs: seq<string>): seq<VaultObject> {
    SortBy(Typed(secrets, "secret") + Typed(certs, "cert"), NameOf)
  }

  // ----- The printed text

  const NO_VERSION := "objectVersion: \"\""

  function VersionLine(version: string): string {
    if version != "" then "objectVersion: " + version else NO_VERSION
  }

  function ObjectLines(o: VaultObject): seq<string> {
    [ENTRY_LINE, INDENT + ("objectName: " + o.objectName),
     INDENT + ("objectType: " + o.objectType), INDENT + VersionLine(o.objectVersion)]
  }

  function AllLines(objects: seq<VaultObject>): seq<string> {
    if objects == [] then [] else AllLines(objects[..|objects| - 1]) + ObjectLines(objects[|objects| - 1])
  }

  function Format(objects: seq<VaultObject>): string {
    if objects == [] then "" else Lines([ARRAY_LINE] + AllLines(objects))
  }

  /** DetectChanges */
  predicate DetectChanges(current: string, new_: string) {
    TrimSpace(current) != TrimSpace(new_)
  }

  // ----- The loops

  /** GenerateObjectsFromVault */
  method GenerateObjectsFromVault(secrets: seq<string>, certs: seq<string>) returns (objects: seq<VaultObject>)
    ensures objects == Generated(secrets, certs)
  {
    objects := [];
    for i := 0 to |secrets|
      invariant objects == Typed(secrets, "secret")[..i]
    {
      objects := objects + [VaultObject(secrets[i], "secret", "")];
    }
    for i := 0 to |certs|
      invariant objects == Typed(secrets, "secret") + Typed(certs, "cert")[..i]
    {
      objects := objects + [VaultObject(certs[i], "cert", "")];
    }
    assert objects == Typed(secrets, "secret") + Typed(certs, "cert");
    objects := SortBy(objects, NameOf);
  }

  lemma FourLines(a: string, b: string, c: string, d: string)
    ensures Lines([a, b, c, d]) == a + "\n" + b + "\n" + c + "\n" + d + "\n"
  {
    LinesOne(a);
    LinesOne(b);
    LinesOne(c);
    LinesOne(d);
    LinesAppend([a], [b]);
    LinesAppend([a] + [b], [c]);
    LinesAppend([a] + [b] + [c], [d]);
    assert [a, b, c, d] == [a] + [b] + [c] + [d];
  }

  lemma ExtendLines(objects: seq<VaultObject>, i: nat)
    requires i < |objects|
    ensures Lines([ARRAY_LINE] + AllLines(objects[..i + 1])) ==
            Lines([ARRAY_LINE] + AllLines(objects[..i])) + Lines(ObjectLines(objects[i]))
  {
    assert objects[..i + 1][..i] == objects[..i];
    LinesAppend([ARRAY_LINE] + AllLines(objects[..i]), ObjectLines(objects[i]));
    Associate([ARRAY_LINE], AllLines(objects[..i]), ObjectLines(objects[i]));
  }

  /** FormatObjectsYAML */
  method FormatObjectsYAML(objects: seq<VaultObject>) returns (text: string)
    ensures text == Format(objects)
  {
    if |objects| == 0 {
      return "";
    }
    text := "array:\n";
    LinesOne(ARRAY_LINE);
    assert [ARRAY_LINE] + AllLines(objects[..0]) == [ARRAY_LINE];
    for i := 0 to |objects|
      invariant text == Lines([ARRAY_LINE] + AllLines(objects[..i]))
    {
      var obj := objects[i];
      ExtendLines(objects, i);
      var entry := PrintObject(obj);
      text := text + entry;
    }
    assert objects[..|objects|] == objects;
  }

  method PrintObject(obj: VaultObject) returns (text: string)
    ensures text == Lines(ObjectLines(obj))
  {
    var name, kind := "    " + ("objectName: " + obj.objectName), "    " + ("objectType: " + obj.objectType);
    var version := "    " + VersionLine(obj.objectVersion);
    FourLines(ENTRY_LINE, name, kind, version);
    text := "  - |" + "\n" + name + "\n" + kind + "\n" + version + "\n";
  }

  // ----- Reading the text back

  predicate OneLine(o: VaultObject) {
    '\n' !in o.objectName && '\n' !in o.objectType && '\n' !in o.objectVersion
  }

  lemma {:induction false} AllLinesAreLines(objects: seq<VaultObject>)
    requires forall o <- objects :: OneLine(o)
    ensures forall l <- AllLines(objects) :: '\n' !in l
  {
    if objects != [] {
      var n := |objects| - 1;
      assert OneLine(objects[n]);
      AllLinesAreLines(objects[..n]);
      forall l | l in ObjectLines(objects[n])
        ensures '\n' !in l
      {}
    }
  }

  lemma {:induction false} AllLinesLength(objects: seq<VaultObject>)
    ensures |AllLines(objects)| == 4 * |objects|
  {
    if objects != [] {
      AllLinesLength(objects[..|objects| - 1]);
    }
  }

  lemma ObjectLinesInjective(a: VaultObject, b: VaultObject)
    requires ObjectLines(a) == ObjectLines(b)
    requires a.objectVersion == b.objectVersion == ""
    ensures a == b
  {
    var nameA, nameB := "objectName: " + a.objectName, "objectName: " + b.objectName;
    var typeA, typeB := "objectType: " + a.objectType, "objectType: " + b.objectType;
    DropPrefix(INDENT, nameA, nameB, ObjectLines(a)[1], ObjectLines(b)[1]);
    DropPrefix(INDENT, typeA, typeB, ObjectLines(a)[2], ObjectLines(b)[2]);
    DropPrefix("objectName: ", a.objectName, b.objectName, nameA, nameB);
    DropPrefix("objectType: ", a.objectType, b.objectType, typeA, typeB);
  }

  lemma DropPrefix(p: string, a: string, b: string, pa: string, pb: string)
    requires pa == p + a && pb == p + b && pa == pb
    ensures a == b
  {
    assert pa[|p|..] == a && pb[|p|..] == b;
  }

  lemma LastFour(objects: seq<VaultObject>)
    requires objects != []
    ensures var n := |objects| - 1;
            |AllLines(objects)| == 4 * n + 4 &&
            AllLines(objects)[..4 * n] == AllLines(objects[..n]) &&
                AllLines(objects)[4 * n..] == ObjectLines(objects[n])
  {
    AllLinesLength(objects[..|objects| - 1]);
  }

  lemma SameLinesSplit(a: seq<VaultObject>, b: seq<VaultObject>, n: nat)
    requires AllLines(a) == AllLines(b) && |a| == |b| == n + 1
    ensures AllLines(a[..n]) == AllLines(b[..n]) && ObjectLines(a[n]) == ObjectLines(b[n])
  {
    LastFour(a);
    LastFour(b);
  }

  predicate Unversioned(objects: seq<VaultObject>) {
    forall i :: 0 <= i < |objects| ==> objects[i].objectVersion == ""
  }

  lemma {:induction false} AllLinesInjective(a: seq<VaultObject>, b: seq<VaultObject>)
    requires AllLines(a) == AllLines(b) && Unversioned(a) && Unversioned(b)
    ensures a == b
    decreases |a|
  {
    AllLinesLength(a);
    AllLinesLength(b);
    if |a| > 0 {
      var n := |a| - 1;
      SameLinesSplit(a, b, n);
      ObjectLinesInjective(a[n], b[n]);
      AllLinesInjective(a[..n], b[..n]);
      SameByParts(a, b, n);
    }
  }

  lemma SameByParts(a: seq<VaultObject>, b: seq<VaultObject>, n: nat)
    requires |a| == |b| == n + 1 && a[..n] == b[..n] && a[n] == b[n]
    ensures a == b
  {
    assert a == a[..n] + [a[n]] && b == b[..n] + [b[n]];
  }

  // ----- Trimming does not hide anything

  lemma TrimDropsOneNewline(body: string)
    requires body != [] && Trimmed(body)
    ensures TrimSpace(body + "\n") == body
  {
    var s := body + "\n";
    assert s[0] == body[0];
    assert TrimLeft(s) == s;
    assert s[..|s| - 1] == body;
    assert TrimRight(body) == body;
  }

  /** A printed, non-empty list trims to itself without the last newline. */
  lemma TrimmedFormat(objects: seq<VaultObject>)
    requires objects != [] && objects[|objects| - 1].objectVersion == ""
    ensures TrimSpace(Format(objects)) + "\n" == Format(objects)
    ensures TrimSpace(Format(objects)) != ""
  {
    var n := |objects| - 1;
    var o := objects[n];
    var last := INDENT + NO_VERSION;
    var three := [ENTRY_LINE, INDENT + ("objectName: " + o.objectName), INDENT + ("objectType: " + o.objectType)];
    var before := [ARRAY_LINE] + (AllLines(objects[..n]) + three);
    assert ObjectLines(o) == three + [last];
    LastLine(AllLines(objects[..n]), three, last);
    assert Format(objects) == Lines(before + [last]);
    LinesAppend(before, [last]);
    LinesOne(last);
    var body := Lines(before) + last;
    assert Format(objects) == body + "\n";
    LinesStart(before);
    NoVersionEnd();
    assert body[0] == 'a' && body[|body| - 1] == '"';
    TrimDropsOneNewline(body);
  }

  lemma LastLine(lines: seq<string>, three: seq<string>, last: string)
    ensures [ARRAY_LINE] + (lines + (three + [last])) == [ARRAY_LINE] + (lines + three) + [last]
  {}

  lemma LinesStart(lines: seq<string>)
    requires lines != [] && lines[0] == ARRAY_LINE
    ensures Lines(lines) != [] && Lines(lines)[0] == 'a'
  {}

  lemma NoVersionEnd()
    ensures (INDENT + NO_VERSION)[|INDENT + NO_VERSION| - 1] == '"'
  {}

  lemma FormatIsInjective(a: seq<VaultObject>, b: seq<VaultObject>)
    requires (forall o <- a :: OneLine(o) && o.objectVersion == "") &&
             (forall o <- b :: OneLine(o) && o.objectVersion == "")
    requires a != [] && b != [] && Format(a) == Format(b)
    ensures a == b
  {
    var la, lb := [ARRAY_LINE] + AllLines(a), [ARRAY_LINE] + AllLines(b);
    AllLinesAreLines(a);
    AllLinesAreLines(b);
    assert '\n' !in ARRAY_LINE;
    SplitLines(la);
    SplitLines(lb);
    assert la == (la + [""])[..|la|] && lb == (lb + [""])[..|lb|];
    assert |la + [""]| == |lb + [""]|;
    assert AllLines(a) == la[1..] && AllLines(b) == lb[1..];
    assert Unversioned(a) && Unversioned(b);
    AllLinesInjective(a, b);
  }

  /** On printed lists, change detection is inequality of the lists. */
  lemma ChangeOfPrinted(a: seq<VaultObject>, b: seq<VaultObject>)
    requires (forall o <- a :: OneLine(o) && o.objectVersion == "") &&
             (forall o <- b :: OneLine(o) && o.objectVersion == "")
    ensures DetectChanges(Format(a), Format(b)) <==> a != b
  {
    assert TrimSpace("") == "";
    if a != [] {
      assert a[|a| - 1] in a;
      TrimmedFormat(a);
    }
    if b != [] {
      assert b[|b| - 1] in b;
      TrimmedFormat(b);
    }
    if a != [] && b != [] && Format(a) == Format(b) {
      FormatIsInjective(a, b);
    }
  }

  // ----- Canonical change detection

  ghost predicate GoodNames(secrets: seq<string>, certs: seq<string>) {
    DistinctBy(secrets + certs, Id) && forall n <- secrets + certs :: '\n' !in n
  }

  lemma TypedElements(secrets: seq<string>, certs: seq<string>, o: VaultObject)
    ensures o in Typed(secrets, "secret") + Typed(certs, "cert") <==>
            o.objectVersion == "" &&
            ((o.objectType == "secret" && o.objectName in secrets) || (o.objectType == "cert" && o.objectName in certs))
  {
    var ts, tc := Typed(secrets, "secret"), Typed(certs, "cert");
    if o.objectVersion == "" && o.objectType == "secret" && o.objectName in secrets {
      var i :| 0 <= i < |secrets| && secrets[i] == o.objectName;
      assert ts[i] == o;
    }
    if o.objectVersion == "" && o.objectType == "cert" && o.objectName in certs {
      var i :| 0 <= i < |certs| && certs[i] == o.objectName;
      assert tc[i] == o;
    }
  }

  lemma GeneratedElements(secrets: seq<string>, certs: seq<string>, o: VaultObject)
    ensures o in Generated(secrets, certs) <==>
            o.objectVersion == "" &&
            ((o.objectType == "secret" && o.objectName in secrets) || (o.objectType == "cert" && o.objectName in certs))
  {
    SortKeepsElements(Typed(secrets, "secret") + Typed(certs, "cert"), NameOf);
    TypedElements(secrets, certs, o);
  }

  lemma TypedDistinct(secrets: seq<string>, certs: seq<string>)
    requires DistinctBy(secrets + certs, Id)
    ensures DistinctBy(Typed(secrets, "secret") + Typed(certs, "cert"), NameOf)
  {
    var all := Typed(secrets, "secret") + Typed(certs, "cert");
    forall i, j | 0 <= i < j < |all|
      ensures NameOf(all[i]) != NameOf(all[j])
    {
      assert Id((secrets + certs)[i]) != Id((secrets + certs)[j]);
    }
  }

  lemma GeneratedOneLine(secrets: seq<string>, certs: seq<string>)
    requires GoodNames(secrets, certs)
    ensures forall o <- Generated(secrets, certs) :: OneLine(o) && o.objectVersion == ""
  {
    forall o | o in Generated(secrets, certs)
      ensures OneLine(o) && o.objectVersion == ""
    {
      GeneratedElements(secrets, certs, o);
      assert o.objectName in secrets + certs;
    }
  }

  /** Between two generated texts a change is reported exactly when the underlying sets of
      typed names differ: neither listing order nor formatting can be seen. */
  lemma ChangeDetectionIsCanonical(s1: seq<string>, c1: seq<string>, s2: seq<string>, c2: seq<string>)
    requires GoodNames(s1, c1) && GoodNames(s2, c2)
    ensures DetectChanges(Format(Generated(s1, c1)), Format(Generated(s2, c2))) <==>
            !(SetOf(s1) == SetOf(s2) && SetOf(c1) == SetOf(c2))
  {
    GeneratedOneLine(s1, c1);
    GeneratedOneLine(s2, c2);
    ChangeOfPrinted(Generated(s1, c1), Generated(s2, c2));
    if SetOf(s1) == SetOf(s2) && SetOf(c1) == SetOf(c2) {
      SameSetsSameList(s1, c1, s2, c2);
    }
    if Generated(s1, c1) == Generated(s2, c2) {
      SameListSameSets(s1, c1, s2, c2);
    }
  }

  lemma SameListSameSets(s1: seq<string>, c1: seq<string>, s2: seq<string>, c2: seq<string>)
    requires Generated(s1, c1) == Generated(s2, c2)
    ensures SetOf(s1) == SetOf(s2) && SetOf(c1) == SetOf(c2)
  {
    forall n
      ensures n in s1 <==> n in s2
      ensures n in c1 <==> n in c2
    {
      NamesByType(s1, c1, n);
      NamesByType(s2, c2, n);
    }
  }

  lemma NamesByType(secrets: seq<string>, certs: seq<string>, n: string)
    ensures VaultObject(n, "secret", "") in Generated(secrets, certs) <==> n in secrets
    ensures VaultObject(n, "cert", "") in Generated(secrets, certs) <==> n in certs
  {
    assert "secret"[0] == 's' && "cert"[0] == 'c';
    GeneratedElements(secrets, certs, VaultObject(n, "secret", ""));
    GeneratedElements(secrets, certs, VaultObject(n, "cert", ""));
  }

  lemma SameSetsSameList(s1: seq<string>, c1: seq<string>, s2: seq<string>, c2: seq<string>)
    requires DistinctBy(s1 + c1, Id) && DistinctBy(s2 + c2, Id)
    requires SetOf(s1) == SetOf(s2) && SetOf(c1) == SetOf(c2)
    ensures Generated(s1, c1) == Generated(s2, c2)
  {
    TypedDistinct(s1, c1);
    TypedDistinct(s2, c2);
    forall o
      ensures o in Typed(s1, "secret") + Typed(c1, "cert") <==> o in Typed(s2, "secret") + Typed(c2, "cert")
    {
      TypedElements(s1, c1, o);
      TypedElements(s2, c2, o);
      assert o.objectName in s1 <==> o.objectName in SetOf(s2);
      assert o.objectName in c1 <==> o.objectName in SetOf(c2);
    }
    SortIsCanonical(Typed(s1, "secret") + Typed(c1, "cert"), Typed(s2, "secret") + Typed(c2, "cert"), NameOf);
  }

  // ----- What the driver reads

  /** The scalar of one object without its last line break. */
  function Element(o: VaultObject): string {
    ("objectName: " + o.objectName) + "\n" + (("objectType: " + o.objectType) + "\n" + VersionLine(o.objectVersion))
  }

  function Elements(objects: seq<VaultObject>): (r: seq<string>)
    ensures |r| == |objects|
    ensures forall i :: 0 <= i < |r| ==> r[i] == Element(objects[i])
  {
    seq(|objects|, i requires 0 <= i < |objects| => Element(objects[i]))
  }

  /** Fields that fit one line of YAML text, and a version that is not itself the quoted empty text. */
  predicate IsPrintable(o: VaultObject) {
    OneLine(o) && IsPlain(o.objectName) && IsPlain(o.objectType) && IsPlain(o.objectVersion) &&
    o.objectVersion != "\"\""
  }

  lemma LabelsAreLines()
    ensures '\n' !in "objectName: " && '\n' !in "objectType: " && '\n' !in "objectVersion: " && '\n' !in NO_VERSION
    ensures IsPlain("objectName: ") && IsPlain("objectType: ") && IsPlain("objectVersion: ") && IsPlain(NO_VERSION)
  {}

  lemma ElementLines(o: VaultObject)
    requires OneLine(o)
    ensures Split(Element(o), '\n') ==
            ["objectName: " + o.objectName, "objectType: " + o.objectType, VersionLine(o.objectVersion)]
  {
    LabelsAreLines();
    var first, second := "objectName: " + o.objectName, "objectType: " + o.objectType;
    var third := VersionLine(o.objectVersion);
    SplitFirst(first, '\n', second + "\n" + third);
    SplitTwo(second, third);
    assert Element(o) == first + ['\n'] + (second + "\n" + third);
  }

  lemma ElementIsReadable(o: VaultObject)
    requires IsPrintable(o)
    ensures Readable(Element(o))
  {
    LabelsAreLines();
    ElementLines(o);
    PlainJoin("objectName: ", o.objectName);
    PlainJoin("objectType: ", o.objectType);
    PlainJoin("objectVersion: ", o.objectVersion);
    var lines := Split(Element(o), '\n');
    assert lines[0][0] == 'o';
    assert AllPlain(lines);
    assert StartsFlush(lines);
  }

  lemma ObjectLinesAreBlock(o: VaultObject)
    requires OneLine(o)
    ensures ObjectLines(o) == EntryLines(Element(o))
  {
    ElementLines(o);
    var a, b, c := "objectName: " + o.objectName, "objectType: " + o.objectType, VersionLine(o.objectVersion);
    assert [a, b, c][1..] == [b, c] && [b, c][1..] == [c] && [c][1..] == [];
    assert Indented([c]) == [INDENT + c];
    assert Indented([b, c]) == [INDENT + b] + Indented([c]);
    assert Indented([a, b, c]) == [INDENT + a] + Indented([b, c]);
  }

  lemma {:induction false} AllLinesAreBody(objects: seq<VaultObject>)
    requires forall o <- objects :: OneLine(o)
    ensures AllLines(objects) == BodyLines(Elements(objects))
  {
    if objects != [] {
      var n := |objects| - 1;
      assert objects[n] in objects && forall o <- objects[..n] :: o in objects;
      AllLinesAreBody(objects[..n]);
      ObjectLinesAreBlock(objects[n]);
      assert Elements(objects) == Elements(objects[..n]) + [Element(objects[n])];
      BodyAppend(Elements(objects[..n]), Element(objects[n]));
    }
  }

  /** The driver reads one scalar for each object, in order. */
  lemma FormatReads(objects: seq<VaultObject>)
    requires objects != [] && forall o <- objects :: IsPrintable(o)
    ensures ReadObjects(Format(objects)) == Some(WithBreaks(Elements(objects)))
  {
    var elements := Elements(objects);
    AllLinesAreBody(objects);
    assert elements != [];
    forall e | e in elements
      ensures Readable(e)
    {
      var i :| 0 <= i < |elements| && elements[i] == e;
      assert objects[i] in objects;
      ElementIsReadable(objects[i]);
    }
    ArrayRoundTrip(elements);
  }

  // ----- A reader of fields

  /** The text before and after the first ": " of a line. */
  function ReadField(line: string): Option<(string, string)> {
    if |line| < 2 then None
    else if line[0] == ':' && line[1] == ' ' then Some(("", line[2..]))
    else match ReadField(line[1..])
      case Some(field) => Some(([line[0]] + field.0, field.1))
      case None => None
  }

  /** The value of the first line that has this field name; a pair of quotes is the empty text. */
  function FieldIn(lines: seq<string>, name: string): Option<string> {
    if lines == [] then None
    else match ReadField(lines[0])
      case Some(field) =>
        if field.0 == name then Some(if field.1 == "\"\"" then "" else field.1) else FieldIn(lines[1..], name)
      case None => FieldIn(lines[1..], name)
  }

  function ReadObject(text: string): Option<VaultObject> {
    var lines := Split(text, '\n');
    var name, kind := FieldIn(lines, "objectName"), FieldIn(lines, "objectType");
    var version := FieldIn(lines, "objectVersion");
    if name.Some? && kind.Some? && version.Some? then Some(VaultObject(name.value, kind.value, version.value)) else None
  }

  lemma {:induction false} ReadFieldOf(name: string, value: string)
    requires ':' !in name
    ensures ReadField(name + ": " + value) == Some((name, value))
  {
    var line := name + ": " + value;
    if name == "" {
      assert line[2..] == value;
    } else {
      assert line[1..] == name[1..] + ": " + value;
      ReadFieldOf(name[1..], value);
      assert name == [name[0]] + name[1..];
    }
  }

  /** A printed value of a field: quoted when empty. */
  function Quoted(value: string): string {
    if value == "" then "\"\"" else value
  }

  lemma FieldLines(o: VaultObject)
    ensures "objectName: " + o.objectName == "objectName" + ": " + o.objectName
    ensures "objectType: " + o.objectType == "objectType" + ": " + o.objectType
    ensures VersionLine(o.objectVersion) == "objectVersion" + ": " + Quoted(o.objectVersion)
  {
    assert "objectName: " == "objectName" + ": " && "objectType: " == "objectType" + ": ";
    assert "objectVersion: " == "objectVersion" + ": ";
    assert NO_VERSION == "objectVersion" + ": " + "\"\"";
  }

  lemma FieldNames()
    ensures ':' !in "objectName" && ':' !in "objectType" && ':' !in "objectVersion"
    ensures "objectName" != "objectType" && "objectName" != "objectVersion" && "objectType" != "objectVersion"
  {
    assert "objectName"[6] == 'N' && "objectType"[6] == 'T' && "objectVersion"[6] == 'V';
  }

  lemma FieldAtHead(name: string, value: string, rest: seq<string>, wanted: string)
    requires ':' !in name
    ensures FieldIn([name + ": " + value] + rest, wanted) ==
            if name == wanted then Some(if value == "\"\"" then "" else value) else FieldIn(rest, wanted)
  {
    ReadFieldOf(name, value);
    assert ([name + ": " + value] + rest)[1..] == rest;
  }

  /** Reading the fields of an object's scalar gives the object back. */
  lemma ReadObjectOf(o: VaultObject)
    requires OneLine(o) && o.objectName != "\"\"" && o.objectType != "\"\"" && o.objectVersion != "\"\""
    ensures ReadObject(Element(o) + "\n") == Some(o)
  {
    var a, b, c := "objectName" + ": " + o.objectName, "objectType" + ": " + o.objectType,
      "objectVersion" + ": " + Quoted(o.objectVersion);
    ElementWithBreak(o);
    FieldLines(o);
    FieldNames();
    assert Split(Element(o) + "\n", '\n') == [a] + ([b] + ([c] + [""]));
    forall wanted
      ensures FieldIn([a] + ([b] + ([c] + [""])), wanted) ==
              if wanted == "objectName" then Some(o.objectName)
              else if wanted == "objectType" then Some(o.objectType)
              else if wanted == "objectVersion" then Some(o.objectVersion)
              else FieldIn([""], wanted)
    {
      FieldAtHead("objectName", o.objectName, [b] + ([c] + [""]), wanted);
      FieldAtHead("objectType", o.objectType, [c] + [""], wanted);
      FieldAtHead("objectVersion", Quoted(o.objectVersion), [""], wanted);
    }
  }

  lemma ElementWithBreak(o: VaultObject)
    requires OneLine(o)
    ensures Split(Element(o) + "\n", '\n') ==
            ["objectName: " + o.objectName, "objectType: " + o.objectType, VersionLine(o.objectVersion), ""]
  {
    LabelsAreLines();
    var first, second := "objectName: " + o.objectName, "objectType: " + o.objectType;
    var third := VersionLine(o.objectVersion);
    SplitFirst(first, '\n', second + "\n" + third + "\n");
    SplitFirst(second, '\n', third + "\n");
    SplitFirst(third, '\n', "");
    assert third + "\n" == third + ['\n'] + "";
    assert second + "\n" + third + "\n" == second + ['\n'] + (third + "\n");
    assert Element(o) + "\n" == first + ['\n'] + (second + "\n" + third + "\n");
  }

  /** The whole way back: from the printed text a YAML reader and a reader of "field: value"
      lines recover every object, its name, type and version each under its own label, in
      order, versioned objects included. */
  lemma FormatRoundTrip(objects: seq<VaultObject>)
    requires objects != []
    requires forall o <- objects :: IsPrintable(o) && o.objectName != "\"\"" && o.objectType != "\"\""
    ensures var values := ReadObjects(Format(objects));
            values.Some? && |values.value| == |objects| &&
            forall i :: 0 <= i < |objects| ==> ReadObject(values.value[i]) == Some(objects[i])
  {
    FormatReads(objects);
    var values := WithBreaks(Elements(objects));
    forall i | 0 <= i < |objects|
      ensures ReadObject(values[i]) == Some(objects[i])
    {
      assert objects[i] in objects;
      WithBreaksAt(Elements(objects), i);
      ReadObjectOf(objects[i]);
    }
  }

  lemma {:induction false} WithBreaksAt(elements: seq<string>, i: nat)
    requires i < |elements|
    ensures WithBreaks(elements)[i] == elements[i] + "\n"
  {
    if i > 0 {
      WithBreaksAt(elements[1..], i - 1);
    }
  }

  // ----- Order and white space

  /** The generated list: a secret's name with type "secret", a certificate's with type
      "cert", no versions, in Go's order of names. */
  lemma GeneratedIsSorted(secrets: seq<string>, certs: seq<string>)
    ensures |Generated(secrets, certs)| == |secrets| + |certs|
    ensures forall i, j :: 0 <= i < j < |secrets| + |certs| ==>
              Leq(Generated(secrets, certs)[i].objectName, Generated(secrets, certs)[j].objectName)
    ensures forall o <- Generated(secrets, certs) :: o.objectVersion == ""
    ensures forall o <- Generated(secrets, certs) ::
              (o.objectType == "secret" && o.objectName in secrets) || (o.objectType == "cert" && o.objectName in certs)
    ensures forall n <- secrets :: VaultObject(n, "secret", "") in Generated(secrets, certs)
    ensures forall n <- certs :: VaultObject(n, "cert", "") in Generated(secrets, certs)
  {
    forall o | o in Generated(secrets, certs)
      ensures o.objectVersion == ""
      ensures (o.objectType == "secret" && o.objectName in secrets) || (o.objectType == "cert" && o.objectName in certs)
    {
      GeneratedElements(secrets, certs, o);
    }
    forall n
      ensures n in secrets ==> VaultObject(n, "secret", "") in Generated(secrets, certs)
      ensures n in certs ==> VaultObject(n, "cert", "") in Generated(secrets, certs)
    {
      NamesByType(secrets, certs, n);
    }
  }

  /** White space around either text is not a change. */
  lemma SurroundingSpaceIsNoChange(before: string, text: string, after: string)
    requires (forall c <- before :: IsSpace(c)) && (forall c <- after :: IsSpace(c))
    ensures !DetectChanges(before + text + after, text) && !DetectChanges(text, before + text + after)
  {
    TrimSpaceIgnores(before, text, after);
  }
}
