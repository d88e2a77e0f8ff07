// Which texts the settings file may hold and what they mean, stated on the
// lines of the text without the decoder of src/app/preferences.c.

module PreferencesFormat {
  import opened Bytes
  import opened Preferences

  // ---------------------------------------------------------------------
  // The names in the file

  lemma Keys()
    ensures Key(Schema) == "schema" && Key(AutoStart) == "auto_start"
    ensures Key(Scale) == "internal_resolution_scale" && Key(Aspect) == "display_aspect"
    ensures Key(Fit) == "display_fit" && Key(Fullscreen) == "fullscreen"
    ensures Key(Width) == "window_width" && Key(Height) == "window_height"
    ensures Key(XemuOverride) == "xemu_override" && Key(HddOverride) == "hdd_override"
    ensures Key(PreservationDirectory) == "preservation_directory"
    ensures Key(DeviceId) == "optical_device_id" && Key(DeviceLabel) == "optical_device_label"
  {
  }

  lemma FieldOfIs(key: string, field: Field)
    ensures FieldOf(key) == Some(field) <==> key == Key(field)
  {
    hide Key;
    KeyFinds(field);
  }

  // ---------------------------------------------------------------------
  // Lines

  // The line is `key=value`; the first equals sign ends the key.
  predicate Says(line: string, key: string, value: string) {
    '=' !in key && line == key + "=" + value
  }

  lemma SaysIsFound(line: string, key: string, value: string)
    requires Says(line, key, value)
    ensures IndexOf(line, '=') == |key| < |line| && line[..|key|] == key && line[|key| + 1..] == value
  {
    IndexOfFirst(key, '=', value);
    assert line == key + ['='] + value;
  }

  lemma Halves(line: string, i: nat)
    requires i < |line| && line[i] == '='
    ensures line == line[..i] + "=" + line[i + 1..]
  {
    var halves := line[..i] + "=" + line[i + 1..];
    assert |halves| == |line|;
    assert forall k :: 0 <= k < |line| ==> halves[k] == line[k];
  }

  lemma FoundIsSaid(line: string)
    requires IndexOf(line, '=') < |line|
    ensures var i := IndexOf(line, '='); Says(line, line[..i], line[i + 1..])
  {
    Halves(line, IndexOf(line, '='));
  }

  // A decimal number of at most 31 digits between two bounds.
  predicate Number(value: string, low: nat, high: nat) {
    && 0 < |value| < 32
    && (forall i :: 0 <= i < |value| ==> '0' <= value[i] <= '9')
    && low <= Value(value) <= high
  }

  predicate AllowedFor(field: Field, value: string) {
    match field
    case Schema => Number(value, 1, 1)
    case AutoStart => Number(value, 0, 1)
    case Scale => Number(value, 1, 10)
    case Aspect => Number(value, 0, 3)
    case Fit => Number(value, 0, 2)
    case Fullscreen => Number(value, 0, 1)
    case Width => Number(value, 640, 7680)
    case Height => Number(value, 480, 4320)
    case XemuOverride => |value| < 4096
    case HddOverride => true
    case PreservationDirectory => |value| < 4096
    case DeviceId => |value| < 1024
    case DeviceLabel => |value| < 272
  }

  // A key that is none of the known ones needs a number.
  predicate Allowed(key: string, value: string) {
    && key != "" && value != ""
    && match FieldOf(key)
       case Some(field) => AllowedFor(field, value)
       case None => Number(value, 0, 0xFFFF_FFFF_FFFF_FFFF)
  }

  ghost predicate AcceptableLine(line: string) {
    line == "" || exists key, value :: Says(line, key, value) && Allowed(key, value)
  }

  ghost predicate SaysField(line: string, field: Field) {
    exists value :: Says(line, Key(field), value)
  }

  // What a field holds in the settings, as the file writes it.
  predicate Holds(p: Settings, field: Field, value: string) {
    match field
    case AutoStart => ParseUnsigned(value) == Some(if p.autoStart then 1 else 0)
    case Scale => ParseUnsigned(value) == Some(p.scale)
    case Aspect => ParseUnsigned(value) == Some(p.aspect)
    case Fit => ParseUnsigned(value) == Some(p.fit)
    case Fullscreen => ParseUnsigned(value) == Some(if p.fullscreen then 1 else 0)
    case Width => ParseUnsigned(value) == Some(p.width)
    case Height => ParseUnsigned(value) == Some(p.height)
    case XemuOverride => p.xemuOverride == value
    case PreservationDirectory => p.preservationDirectory == value
    case DeviceId => p.deviceId == value
    case DeviceLabel => p.deviceLabel == value
    case Schema => true
    case HddOverride => true
  }

  predicate SameIn(p: Settings, q: Settings, field: Field) {
    match field
    case AutoStart => p.autoStart == q.autoStart
    case Scale => p.scale == q.scale
    case Aspect => p.aspect == q.aspect
    case Fit => p.fit == q.fit
    case Fullscreen => p.fullscreen == q.fullscreen
    case Width => p.width == q.width
    case Height => p.height == q.height
    case XemuOverride => p.xemuOverride == q.xemuOverride
    case PreservationDirectory => p.preservationDirectory == q.preservationDirectory
    case DeviceId => p.deviceId == q.deviceId
    case DeviceLabel => p.deviceLabel == q.deviceLabel
    case Schema => true
    case HddOverride => true
  }

  lemma NumbersParse(value: string, low: nat, high: nat)
    requires high < 0x1_0000_0000_0000_0000
    ensures Number(value, low, high) <==> ParseUnsigned(value).Some? && low <= ParseUnsigned(value).value <= high
  {
  }

  lemma FieldNumbersParse(value: string)
    ensures Number(value, 1, 1) <==> ParseUnsigned(value) == Some(1)
    ensures Number(value, 0, 1) <==> ParseUnsigned(value).Some? && ParseUnsigned(value).value <= 1
    ensures Number(value, 1, 10) <==> ParseUnsigned(value).Some? && 1 <= ParseUnsigned(value).value <= 10
    ensures Number(value, 0, 3) <==> ParseUnsigned(value).Some? && ParseUnsigned(value).value <= 3
    ensures Number(value, 0, 2) <==> ParseUnsigned(value).Some? && ParseUnsigned(value).value <= 2
    ensures Number(value, 640, 7680) <==> ParseUnsigned(value).Some? && 640 <= ParseUnsigned(value).value <= 7680
    ensures Number(value, 480, 4320) <==> ParseUnsigned(value).Some? && 480 <= ParseUnsigned(value).value <= 4320
  {
    hide ParseUnsigned, Number;
    NumbersParse(value, 1, 1);
    NumbersParse(value, 0, 1);
    NumbersParse(value, 1, 10);
    NumbersParse(value, 0, 3);
    NumbersParse(value, 0, 2);
    NumbersParse(value, 640, 7680);
    NumbersParse(value, 480, 4320);
  }

  // ---------------------------------------------------------------------
  // One line

  // A known key is accepted once, with an allowed value, which its field then
  // holds; no other field changes.
  lemma KnownIsAssigned(d: Decoded, field: Field, value: string)
    ensures var r := Assign(d, Key(field), value);
            && (r.Some? <==> AllowedFor(field, value) && field !in d.seen)
            && (r.Some? ==>
                  && r.value.seen == d.seen + {field} && Holds(r.value.settings, field, value)
                  && forall other: Field :: other != field ==> SameIn(d.settings, r.value.settings, other))
  {
    hide Key, ParseUnsigned, Number;
    KeyFinds(field);
    FieldNumbersParse(value);
  }

  lemma UnknownIsIgnored(d: Decoded, key: string, value: string)
    requires FieldOf(key).None?
    ensures Assign(d, key, value) == if Number(value, 0, 0xFFFF_FFFF_FFFF_FFFF) then Some(d) else None
  {
    hide FieldOf;
    NumbersParse(value, 0, 0xFFFF_FFFF_FFFF_FFFF);
  }

  // The field a line is about.
  function FieldIn(line: string): Option<Field> {
    var i := IndexOf(line, '=');
    if i == |line| then None else FieldOf(line[..i])
  }

  lemma FieldInIs(line: string, field: Field)
    ensures FieldIn(line) == Some(field) <==> SaysField(line, field)
  {
    hide Key, FieldOf;
    if SaysField(line, field) {
      var value :| Says(line, Key(field), value);
      SaysIsFound(line, Key(field), value);
      FieldOfIs(Key(field), field);
    }
    if FieldIn(line) == Some(field) {
      FoundIsSaid(line);
      FieldOfIs(line[..IndexOf(line, '=')], field);
    }
  }

  lemma LineIsTaken(d: Decoded, line: string)
    ensures var r, f := AssignLine(d, line), FieldIn(line);
            && (r.Some? <==> AcceptableLine(line) && (f.Some? ==> f.value !in d.seen))
            && (r.Some? ==>
                  && r.value.seen == d.seen + (if f.Some? then {f.value} else {})
                  && (forall field: Field :: Some(field) != f ==> SameIn(d.settings, r.value.settings, field))
                  && (forall field: Field, value ::
                        Says(line, Key(field), value) ==> Holds(r.value.settings, field, value)))
  {
    hide Key, FieldOf, Assign, Holds, SameIn, AllowedFor, Number;
    forall field: Field ensures SameIn(d.settings, d.settings, field) {
      SameItself(d.settings, field);
    }
    if line == "" {
      assert IndexOf(line, '=') == |line|;
      forall field: Field, value | Says(line, Key(field), value) ensures false {
        SaysIsFound(line, Key(field), value);
      }
    } else if IndexOf(line, '=') == |line| {
      forall key, value | Says(line, key, value) ensures false {
        SaysIsFound(line, key, value);
      }
    } else {
      SplitIsAssigned(d, line);
    }
  }

  lemma SameItself(p: Settings, field: Field)
    ensures SameIn(p, p, field)
  {
  }

  lemma SplitIsAssigned(d: Decoded, line: string)
    requires IndexOf(line, '=') < |line|
    ensures var r, f := AssignLine(d, line), FieldIn(line);
            && (r.Some? <==> AcceptableLine(line) && (f.Some? ==> f.value !in d.seen))
            && (r.Some? ==>
                  && r.value.seen == d.seen + (if f.Some? then {f.value} else {})
                  && (forall field: Field :: Some(field) != f ==> SameIn(d.settings, r.value.settings, field))
                  && (forall field: Field, value ::
                        Says(line, Key(field), value) ==> Holds(r.value.settings, field, value)))
  {
    hide Key, FieldOf, Assign, AssignLine, Holds, SameIn, Says, AcceptableLine, AllowedFor, Number, FieldIn;
    var i := IndexOf(line, '=');
    var key, value := line[..i], line[i + 1..];
    FoundIsSaid(line);
    SaidAlone(line, key, value);
    PairIsAssigned(d, line, key, value);
    match FieldOf(key) {
      case Some(field) =>
        FieldOfIs(key, field);
        KnownIsAssigned(d, field, value);
        forall other: Field | Key(other) == key ensures other == field {
          FieldOfIs(key, other);
        }
      case None =>
        UnknownIsIgnored(d, key, value);
        forall field: Field ensures SameIn(d.settings, d.settings, field) && Key(field) != key {
          SameItself(d.settings, field);
          FieldOfIs(key, field);
        }
    }
  }

  // A line says one thing only.
  lemma SaidAlone(line: string, key: string, value: string)
    requires Says(line, key, value)
    ensures forall k, v :: Says(line, k, v) ==> k == key && v == value
    ensures FieldIn(line) == FieldOf(key)
    ensures AcceptableLine(line) <==> Allowed(key, value)
  {
    hide FieldOf, Says, Allowed, AllowedFor;
    SaysIsFound(line, key, value);
    forall k, v | Says(line, k, v) ensures k == key && v == value {
      SaysIsFound(line, k, v);
    }
  }

  lemma PairIsAssigned(d: Decoded, line: string, key: string, value: string)
    requires Says(line, key, value)
    ensures AssignLine(d, line) == if key == "" || value == "" then None else Assign(d, key, value)
  {
    hide FieldOf, Assign;
    SaysIsFound(line, key, value);
  }

  // ---------------------------------------------------------------------
  // All lines

  // The lines of a text, without their ends.
  function TrimmedLines(text: string): (lines: seq<string>) {
    seq(|Lines(text)|, i requires 0 <= i < |Lines(text)| => TrimReturn(Lines(text)[i]))
  }

  // One carriage return in front of a line end belongs to that end.
  lemma ReturnIsDropped(line: string)
    ensures TrimReturn(line + "\r") == line
    ensures !('\r' in line) ==> TrimReturn(line) == line
  {
  }

  function AssignAll(d: Decoded, lines: seq<string>): Option<Decoded>
    decreases |lines|
  {
    if lines == [] then Some(d)
    else
      var after := AssignLine(d, lines[0]);
      if after.None? then None else AssignAll(after.value, lines[1..])
  }

  lemma {:induction false} LinesAreAssigned(text: string, d: Decoded)
    ensures DecodeLines(text, d) == AssignAll(d, TrimmedLines(text))
    decreases |text|
  {
    hide AssignLine, TrimReturn;
    if text != "" {
      var newline := IndexOf(text, '\n');
      var line := TrimReturn(text[..newline]);
      assert text[..|text|] == text;
      assert TrimmedLines(text)[0] == line;
      if newline == |text| {
        assert TrimmedLines(text)[1..] == [];
      } else {
        assert TrimmedLines(text)[1..] == TrimmedLines(text[newline + 1..]);
        var after := AssignLine(d, line);
        if after.Some? {
          LinesAreAssigned(text[newline + 1..], after.value);
        }
      }
    }
  }

  // No known key is said twice, or again after it was seen.
  ghost predicate SaidOnce(lines: seq<string>, seen: set<Field>) {
    && (forall i, field: Field :: 0 <= i < |lines| && SaysField(lines[i], field) ==> field !in seen)
    && (forall i, j, field: Field ::
          0 <= i < j < |lines| && SaysField(lines[i], field) ==> !SaysField(lines[j], field))
  }

  ghost predicate SaidIn(lines: seq<string>, field: Field) {
    exists i :: 0 <= i < |lines| && SaysField(lines[i], field)
  }

  // Every field holds what its line says, or what it held before.
  ghost predicate Meaning(before: Settings, after: Settings, lines: seq<string>) {
    && (forall i, field: Field, value ::
          0 <= i < |lines| && Says(lines[i], Key(field), value) ==> Holds(after, field, value))
    && (forall field: Field :: !SaidIn(lines, field) ==> SameIn(before, after, field))
  }

  lemma SaidOnceStep(lines: seq<string>, seen: set<Field>)
    requires lines != []
    ensures var f := FieldIn(lines[0]);
            SaidOnce(lines, seen)
            <==> (f.Some? ==> f.value !in seen)
                 && SaidOnce(lines[1..], seen + (if f.Some? then {f.value} else {}))
  {
    hide Key, FieldOf, FieldIn, SaysField;
    var f, rest := FieldIn(lines[0]), lines[1..];
    var now := seen + (if f.Some? then {f.value} else {});
    forall field: Field ensures f == Some(field) <==> SaysField(lines[0], field) {
      FieldInIs(lines[0], field);
    }
    if SaidOnce(lines, seen) {
      forall i, field: Field | 0 <= i < |rest| && SaysField(rest[i], field) ensures field !in now {
        assert lines[i + 1] == rest[i];
      }
    }
    if (f.Some? ==> f.value !in seen) && SaidOnce(rest, now) {
      forall i, field: Field | 0 <= i < |lines| && SaysField(lines[i], field) ensures field !in seen {
        assert i > 0 ==> rest[i - 1] == lines[i];
      }
      forall i, j, field: Field | 0 <= i < j < |lines| && SaysField(lines[i], field)
        ensures !SaysField(lines[j], field)
      {
        assert rest[j - 1] == lines[j] && (i > 0 ==> rest[i - 1] == lines[i]);
      }
    }
  }

  lemma {:induction false} AllAreAssigned(d: Decoded, lines: seq<string>)
    ensures var r := AssignAll(d, lines);
            && (r.Some? <==> (forall i :: 0 <= i < |lines| ==> AcceptableLine(lines[i])) && SaidOnce(lines, d.seen))
            && (r.Some? ==>
                  && (forall field: Field :: field in r.value.seen <==> field in d.seen || SaidIn(lines, field))
                  && Meaning(d.settings, r.value.settings, lines))
    decreases |lines|
  {
    hide Key, FieldOf, FieldIn, AssignLine, AcceptableLine, SaidOnce, Meaning, SaysField, Says, SaidIn;
    if lines == [] {
      NothingSaid(d);
    } else {
      LineIsTaken(d, lines[0]);
      SaidOnceStep(lines, d.seen);
      var after := AssignLine(d, lines[0]);
      var rest := lines[1..];
      assert forall i :: 1 <= i < |lines| ==> lines[i] == rest[i - 1];
      if after.Some? {
        AllAreAssigned(after.value, rest);
        var r := AssignAll(after.value, rest);
        assert (forall i :: 0 <= i < |lines| ==> AcceptableLine(lines[i]))
          <==> (forall i :: 0 <= i < |rest| ==> AcceptableLine(rest[i])) by {
          assert forall i :: 0 <= i < |rest| ==> rest[i] == lines[i + 1];
        }
        if r.Some? {
          SaidInStep(lines);
          MeansStep(d.settings, after.value.settings, r.value.settings, lines, d.seen);
        }
      }
    }
  }

  lemma NothingSaid(d: Decoded)
    ensures SaidOnce([], d.seen) && Meaning(d.settings, d.settings, [])
    ensures forall field: Field :: !SaidIn([], field)
  {
    forall field: Field ensures SameIn(d.settings, d.settings, field) {
      SameItself(d.settings, field);
    }
  }

  lemma SaidInStep(lines: seq<string>)
    requires lines != []
    ensures forall field: Field ::
              SaidIn(lines, field) <==> FieldIn(lines[0]) == Some(field) || SaidIn(lines[1..], field)
  {
    hide Key, FieldOf, FieldIn, SaysField;
    var rest := lines[1..];
    forall field: Field
      ensures SaidIn(lines, field) <==> FieldIn(lines[0]) == Some(field) || SaidIn(rest, field)
    {
      FieldInIs(lines[0], field);
      if SaidIn(lines, field) {
        var i :| 0 <= i < |lines| && SaysField(lines[i], field);
        assert i > 0 ==> rest[i - 1] == lines[i];
      }
      if SaidIn(rest, field) {
        var i :| 0 <= i < |rest| && SaysField(rest[i], field);
        assert lines[i + 1] == rest[i];
      }
    }
  }

  lemma MeansStep(before: Settings, middle: Settings, after: Settings, lines: seq<string>, seen: set<Field>)
    requires lines != [] && SaidOnce(lines, seen) && Meaning(middle, after, lines[1..])
    requires forall field: Field :: Some(field) != FieldIn(lines[0]) ==> SameIn(before, middle, field)
    requires forall field: Field, value :: Says(lines[0], Key(field), value) ==> Holds(middle, field, value)
    ensures Meaning(before, after, lines)
  {
    hide Key, FieldOf, FieldIn, Says, Holds, SameIn;
    var rest := lines[1..];
    SaidInStep(lines);
    forall i, field: Field, value | 0 <= i < |lines| && Says(lines[i], Key(field), value)
      ensures Holds(after, field, value)
    {
      if i > 0 {
        assert rest[i - 1] == lines[i];
      } else {
        assert SaysField(lines[0], field);
        NotSaidAgain(lines, seen, field);
        HoldsStill(middle, after, field, value);
      }
    }
    forall field: Field | !SaidIn(lines, field) ensures SameIn(before, after, field) {
      SameTwice(before, middle, after, field);
    }
  }

  lemma NotSaidAgain(lines: seq<string>, seen: set<Field>, field: Field)
    requires lines != [] && SaidOnce(lines, seen) && SaysField(lines[0], field)
    ensures !SaidIn(lines[1..], field)
  {
    hide SaysField;
    assert forall j :: 0 <= j < |lines[1..]| ==> lines[1..][j] == lines[j + 1];
  }

  lemma HoldsStill(p: Settings, q: Settings, field: Field, value: string)
    requires Holds(p, field, value) && SameIn(p, q, field)
    ensures Holds(q, field, value)
  {
  }

  lemma SameTwice(p: Settings, q: Settings, r: Settings, field: Field)
    requires SameIn(p, q, field) && SameIn(q, r, field)
    ensures SameIn(p, r, field)
  {
  }

  // The text is accepted exactly when every line is empty or says an allowed
  // value, no known key is said twice, and the schema is said. Every field then
  // holds what the file says, and its default if the file does not say it.
  lemma DecodesExactly(text: string)
    ensures var lines := TrimmedLines(text);
            && (Decode(text).Some?
                <==> && (forall i :: 0 <= i < |lines| ==> AcceptableLine(lines[i]))
                     && (forall i, j, field: Field ::
                           0 <= i < j < |lines| && SaysField(lines[i], field) ==> !SaysField(lines[j], field))
                     && SaidIn(lines, Schema))
            && (Decode(text).Some? ==> Meaning(DEFAULTS, Decode(text).value, lines))
  {
    hide TrimmedLines, AcceptableLine, SaysField, SaidIn, Meaning, AssignLine;
    LinesAreAssigned(text, NOTHING);
    AllAreAssigned(NOTHING, TrimmedLines(text));
  }

  // Lines that each end in a newline.
  function Joined(lines: seq<string>): string {
    if lines == [] then "" else lines[0] + "\n" + Joined(lines[1..])
  }

  // The lines are the text cut at its newlines; the last line may lack one.
  lemma {:induction false} LinesOfJoined(lines: seq<string>, last: string)
    requires forall i :: 0 <= i < |lines| ==> '\n' !in lines[i] && '\r' !in lines[i]
    requires '\n' !in last && '\r' !in last
    ensures TrimmedLines(Joined(lines) + last) == lines + (if last == "" then [] else [last])
  {
    hide TrimmedLines;
    if lines == [] {
      assert Joined(lines) + last == last;
      LastLine(last);
    } else {
      var rest := Joined(lines[1..]) + last;
      assert Joined(lines) + last == lines[0] + "\n" + rest;
      FirstLine(lines[0], rest);
      LinesOfJoined(lines[1..], last);
      assert lines == [lines[0]] + lines[1..];
    }
  }

  lemma FirstLine(line: string, rest: string)
    requires '\n' !in line && '\r' !in line
    ensures TrimmedLines(line + "\n" + rest) == [line] + TrimmedLines(rest)
  {
    hide TrimReturn;
    var text := line + ['\n'] + rest;
    assert line + "\n" + rest == text;
    IndexOfFirst(line, '\n', rest);
    assert text[..|line|] == line && text[|line| + 1..] == rest;
    assert Lines(text) == [line] + Lines(rest);
    ReturnIsDropped(line);
  }

  lemma LastLine(last: string)
    requires '\n' !in last && '\r' !in last
    ensures TrimmedLines(last) == if last == "" then [] else [last]
  {
    if last != "" {
      assert IndexOf(last, '\n') == |last|;
      assert Lines(last) == [last];
    }
  }

  // A file that says only its schema leaves every setting at its default.
  lemma OnlySchema()
    ensures Decode("schema=1\n") == Some(Settings(true, 2, 1, 1, true, 1280, 720, "", "", "", ""))
  {
    hide Decode, AcceptableLine, SaysField, SaidIn, Meaning, FieldOf, TrimmedLines, Key;
    var lines := ["schema=1"];
    SchemaLine();
    DecodesExactly("schema=1\n");
    SchemaIsAlone(lines);
    var p := Decode("schema=1\n").value;
    Unchanged(DEFAULTS, p, lines);
  }

  lemma SchemaLine()
    ensures TrimmedLines("schema=1\n") == ["schema=1"]
  {
    assert Joined(["schema=1"]) == "schema=1" + "\n" + Joined([]);
    assert Joined(["schema=1"]) + "" == "schema=1\n";
    LinesOfJoined(["schema=1"], "");
  }

  lemma SchemaIsAlone(lines: seq<string>)
    requires lines == ["schema=1"]
    ensures AcceptableLine(lines[0]) && SaidIn(lines, Schema)
    ensures forall field: Field :: SaidIn(lines, field) ==> field == Schema
  {
    hide FieldOf, Key;
    Keys();
    KeyFinds(Schema);
    assert Says(lines[0], "schema", "1");
    SaidAlone(lines[0], "schema", "1");
    assert Value("1") == 1 by {
      assert "1"[..0] == "";
    }
    assert Number("1", 1, 1) && Allowed("schema", "1");
    assert SaysField(lines[0], Schema);
    forall field: Field | SaidIn(lines, field) ensures field == Schema {
      FieldInIs(lines[0], field);
      FieldInIs(lines[0], Schema);
    }
  }

  lemma Unchanged(p: Settings, q: Settings, lines: seq<string>)
    requires Meaning(p, q, lines) && forall field: Field :: SaidIn(lines, field) ==> field == Schema
    ensures p == q
  {
    hide SaidIn;
    assert SameIn(p, q, AutoStart) && SameIn(p, q, Scale) && SameIn(p, q, Aspect) && SameIn(p, q, Fit);
    assert SameIn(p, q, Fullscreen) && SameIn(p, q, Width) && SameIn(p, q, Height);
    assert SameIn(p, q, XemuOverride) && SameIn(p, q, PreservationDirectory);
    assert SameIn(p, q, DeviceId) && SameIn(p, q, DeviceLabel);
  }

  // ---------------------------------------------------------------------
  // The text that is written

  function Said(key: string, value: string): string {
    key + "=" + value + "\n"
  }

  function SaidUnlessEmpty(key: string, value: string): string {
    if value == "" then "" else Said(key, value)
  }

  // The numbers come first and in this order; a label is written only with the
  // drive that it names.
  lemma EncodeIs(p: Settings)
    ensures Encode(p)
         == Said("schema", "1") + Said("auto_start", if p.autoStart then "1" else "0")
            + Said("internal_resolution_scale", Decimal(p.scale)) + Said("display_aspect", Decimal(p.aspect))
            + Said("display_fit", Decimal(p.fit)) + Said("fullscreen", if p.fullscreen then "1" else "0")
            + Said("window_width", Decimal(p.width)) + Said("window_height", Decimal(p.height))
            + (SaidUnlessEmpty("xemu_override", p.xemuOverride)
               + SaidUnlessEmpty("preservation_directory", p.preservationDirectory)
               + SaidUnlessEmpty("optical_device_id", p.deviceId)
               + (if p.deviceId == "" then "" else SaidUnlessEmpty("optical_device_label", p.deviceLabel)))
  {
    hide Key, Decimal, Said, SaidUnlessEmpty;
    TextConcat(Numbers(p), Strings(p));
    NumbersAre(p);
    StringsAre(p);
  }

  lemma Flags()
    ensures Decimal(0) == "0" && Decimal(1) == "1"
  {
  }

  lemma LineIsSaid(field: Field, value: string)
    ensures Line(field, value) == Said(Key(field), value)
    ensures Text([(field, value)]) == Said(Key(field), value)
    ensures Text(Optional(field, value)) == SaidUnlessEmpty(Key(field), value)
  {
    hide Key;
    assert Text([(field, value)]) == Line(field, value) + Text([]);
  }

  lemma NumbersAre(p: Settings)
    ensures Text(Numbers(p))
         == Said("schema", "1") + Said("auto_start", if p.autoStart then "1" else "0")
            + Said("internal_resolution_scale", Decimal(p.scale)) + Said("display_aspect", Decimal(p.aspect))
            + Said("display_fit", Decimal(p.fit)) + Said("fullscreen", if p.fullscreen then "1" else "0")
            + Said("window_width", Decimal(p.width)) + Said("window_height", Decimal(p.height))
  {
    hide Key, Decimal, Said, Line, Text;
    Keys();
    Flags();
    var n := Numbers(p);
    EightLines(n);
    LineIsSaid(Schema, "1");
    LineIsSaid(AutoStart, n[1].1);
    LineIsSaid(Scale, n[2].1);
    LineIsSaid(Aspect, n[3].1);
    LineIsSaid(Fit, n[4].1);
    LineIsSaid(Fullscreen, n[5].1);
    LineIsSaid(Width, n[6].1);
    LineIsSaid(Height, n[7].1);
  }

  lemma EightLines(n: seq<(Field, string)>)
    requires |n| == 8
    ensures Text(n)
         == Line(n[0].0, n[0].1) + Line(n[1].0, n[1].1) + Line(n[2].0, n[2].1) + Line(n[3].0, n[3].1)
            + Line(n[4].0, n[4].1) + Line(n[5].0, n[5].1) + Line(n[6].0, n[6].1) + Line(n[7].0, n[7].1)
  {
    hide Line;
    FourLines(n[..4]);
    FourLines(n[4..]);
    TextConcat(n[..4], n[4..]);
    assert n[..4] + n[4..] == n;
  }

  lemma FourLines(n: seq<(Field, string)>)
    requires |n| == 4
    ensures Text(n)
         == Line(n[0].0, n[0].1) + Line(n[1].0, n[1].1) + Line(n[2].0, n[2].1) + Line(n[3].0, n[3].1)
  {
    hide Line;
    assert n[1..][1..] == n[2..] && n[2..][1..] == n[3..] && n[3..][1..] == [];
    assert Text(n[3..]) == Line(n[3].0, n[3].1) + Text([]);
    assert Text(n[2..]) == Line(n[2].0, n[2].1) + Text(n[3..]);
  }

  lemma StringsAre(p: Settings)
    ensures Text(Strings(p))
         == SaidUnlessEmpty("xemu_override", p.xemuOverride)
            + SaidUnlessEmpty("preservation_directory", p.preservationDirectory)
            + SaidUnlessEmpty("optical_device_id", p.deviceId)
            + (if p.deviceId == "" then "" else SaidUnlessEmpty("optical_device_label", p.deviceLabel))
  {
    hide Key, Said, SaidUnlessEmpty, Line, Optional;
    Keys();
    var a, b := Optional(XemuOverride, p.xemuOverride), Optional(PreservationDirectory, p.preservationDirectory);
    var c := Optional(DeviceId, p.deviceId);
    var d := if p.deviceId != "" then Optional(DeviceLabel, p.deviceLabel) else [];
    LineIsSaid(XemuOverride, p.xemuOverride);
    LineIsSaid(PreservationDirectory, p.preservationDirectory);
    LineIsSaid(DeviceId, p.deviceId);
    LineIsSaid(DeviceLabel, p.deviceLabel);
    TextConcat(a, b);
    TextConcat(a + b, c);
    TextConcat(a + b + c, d);
  }
}
