// The settings file of src/app/preferences.c.
//
// A C string is a sequence of characters without the terminating zero, so a
// buffer of capacity n holds fewer than n of them. Numbers are read as plain
// decimal digits, which is all the encoder writes.

module Preferences {
  import opened Bytes

  const PATH_CAPACITY: nat := 4096
  const DEVICE_ID_CAPACITY: nat := 1024
  const LABEL_CAPACITY: nat := 272
  const TEXT_CAPACITY: nat := 2 * PATH_CAPACITY + DEVICE_ID_CAPACITY + LABEL_CAPACITY + 512
  const READ_LIMIT: nat := 16 * 1024
  const ASPECT_NATIVE: nat := 3
  const FIT_STRETCH: nat := 2

  datatype Settings = Settings(
    autoStart: bool, scale: nat, aspect: nat, fit: nat, fullscreen: bool, width: nat, height: nat,
    xemuOverride: string, preservationDirectory: string, deviceId: string, deviceLabel: string)

  const DEFAULTS: Settings := Settings(true, 2, 1, 1, true, 1280, 720, "", "", "", "")

  datatype Field =
    | Schema | AutoStart | Scale | Aspect | Fit | Fullscreen | Width | Height
    | XemuOverride | HddOverride | PreservationDirectory | DeviceId | DeviceLabel

  function Key(field: Field): string {
    match field
    case Schema => "schema"
    case AutoStart => "auto_start"
    case Scale => "internal_resolution_scale"
    case Aspect => "display_aspect"
    case Fit => "display_fit"
    case Fullscreen => "fullscreen"
    case Width => "window_width"
    case Height => "window_height"
    case XemuOverride => "xemu_override"
    case HddOverride => "hdd_override"
    case PreservationDirectory => "preservation_directory"
    case DeviceId => "optical_device_id"
    case DeviceLabel => "optical_device_label"
  }

  // The order in which the decoder tries the keys.
  function FieldOf(key: string): Option<Field> {
    if key == Key(HddOverride) then Some(HddOverride)
    else if key == Key(DeviceId) then Some(DeviceId)
    else if key == Key(DeviceLabel) then Some(DeviceLabel)
    else if key == Key(XemuOverride) then Some(XemuOverride)
    else if key == Key(PreservationDirectory) then Some(PreservationDirectory)
    else if key == Key(Schema) then Some(Schema)
    else if key == Key(AutoStart) then Some(AutoStart)
    else if key == Key(Scale) then Some(Scale)
    else if key == Key(Aspect) then Some(Aspect)
    else if key == Key(Fit) then Some(Fit)
    else if key == Key(Fullscreen) then Some(Fullscreen)
    else if key == Key(Width) then Some(Width)
    else if key == Key(Height) then Some(Height)
    else None
  }

  lemma KeyFinds(field: Field)
    ensures FieldOf(Key(field)) == Some(field)
    ensures '=' !in Key(field) && '\n' !in Key(field) && 0 < |Key(field)| <= 25
  {
    hide Key;
    KeysDiffer(field);
    KeyLetters(field);
  }

  lemma KeyLetters(field: Field)
    ensures '=' !in Key(field) && '\n' !in Key(field) && 0 < |Key(field)| <= 25
  {
    hide Key;
    if NumericField(field) {
      NumericKeyLetters(field);
    } else {
      TextKeyLetters(field);
    }
  }

  lemma NumericKeyLetters(field: Field)
    requires NumericField(field)
    ensures 0 < |Key(field)| <= 25 && forall i :: 0 <= i < |Key(field)| ==> Key(field)[i] >= '_'
  {
  }

  lemma TextKeyLetters(field: Field)
    requires !NumericField(field)
    ensures 0 < |Key(field)| <= 25 && forall i :: 0 <= i < |Key(field)| ==> Key(field)[i] >= '_'
  {
  }

  // Two keys of equal length differ in their first or second letter.
  lemma KeysDiffer(field: Field)
    ensures forall other: Field :: Key(other) == Key(field) ==> other == field
  {
  }

  // ---------------------------------------------------------------------
  // Text

  // The position of the first `c`, or the length of the text.
  function IndexOf(text: string, c: char): (i: nat)
    ensures i <= |text|
    ensures i < |text| ==> text[i] == c
    ensures c !in text[..i]
  {
    if text == "" || text[0] == c then 0
    else
      var i := 1 + IndexOf(text[1..], c);
      assert text[..i] == [text[0]] + text[1..][..i - 1];
      i
  }

  lemma {:induction false} IndexOfFirst(head: string, c: char, tail: string)
    requires c !in head
    ensures IndexOf(head + [c] + tail, c) == |head|
  {
    var text := head + [c] + tail;
    if head != "" {
      assert text[1..] == head[1..] + [c] + tail;
      IndexOfFirst(head[1..], c, tail);
    }
  }

  predicate Digit(c: char) {
    '0' <= c <= '9'
  }

  const UNSIGNED_LIMIT: nat := 0x1_0000_0000_0000_0000

  function Value(digits: string): nat
    requires forall i :: 0 <= i < |digits| ==> Digit(digits[i])
  {
    if digits == "" then 0
    else
      var last := |digits| - 1;
      assert Digit(digits[last]);
      Value(digits[..last]) * 10 + (digits[last] as int - '0' as int)
  }

  // At most 31 decimal digits that fit an unsigned long.
  function ParseUnsigned(text: string): Option<nat> {
    if 0 < |text| < 32 && (forall i :: 0 <= i < |text| ==> Digit(text[i])) && Value(text) < UNSIGNED_LIMIT
    then Some(Value(text)) else None
  }

  function Decimal(n: nat): (text: string)
    ensures text != ""
    ensures forall i :: 0 <= i < |text| ==> Digit(text[i])
  {
    var digit := [(n % 10 + '0' as int) as char];
    if n < 10 then digit else Decimal(n / 10) + digit
  }

  lemma {:induction false} DecimalReads(n: nat)
    ensures Value(Decimal(n)) == n
  {
    var digit := [(n % 10 + '0' as int) as char];
    if n < 10 {
      assert Decimal(n)[..0] == "";
    } else {
      DecimalReads(n / 10);
      assert Decimal(n)[..|Decimal(n)| - 1] == Decimal(n / 10);
    }
  }

  function Power10(k: nat): nat {
    if k == 0 then 1 else 10 * Power10(k - 1)
  }

  lemma {:induction false} DecimalLength(n: nat, digits: nat)
    requires digits > 0 && n < Power10(digits)
    ensures |Decimal(n)| <= digits
    decreases digits
  {
    if n >= 10 {
      DecimalLength(n / 10, digits - 1);
    }
  }

  lemma SmallDecimal(n: nat)
    requires n < 10000
    ensures |Decimal(n)| <= 4 && ParseUnsigned(Decimal(n)) == Some(n)
    ensures '\n' !in Decimal(n) && '\r' !in Decimal(n)
  {
    DecimalReads(n);
    DecimalLength(n, 4);
    assert forall i :: 0 <= i < |Decimal(n)| ==> Digit(Decimal(n)[i]);
  }

  // ---------------------------------------------------------------------
  // Encoding

  predicate PlainText(text: string) {
    '\n' !in text && '\r' !in text
  }

  // The check at the head of gdox_preferences_save.
  predicate Savable(p: Settings) {
    && 1 <= p.scale <= 10 && p.aspect <= ASPECT_NATIVE && p.fit <= FIT_STRETCH
    && PlainText(p.xemuOverride) && PlainText(p.preservationDirectory)
    && PlainText(p.deviceId) && PlainText(p.deviceLabel)
    && 640 <= p.width <= 7680 && 480 <= p.height <= 4320
  }

  // What the buffers of the settings record can hold.
  predicate Stored(p: Settings) {
    && |p.xemuOverride| < PATH_CAPACITY && |p.preservationDirectory| < PATH_CAPACITY
    && |p.deviceId| < DEVICE_ID_CAPACITY && |p.deviceLabel| < LABEL_CAPACITY
  }

  function Line(field: Field, value: string): string {
    Key(field) + "=" + value + "\n"
  }

  function Flag(b: bool): nat {
    if b then 1 else 0
  }

  function Numbers(p: Settings): seq<(Field, string)> {
    [(Schema, Decimal(1)), (AutoStart, Decimal(Flag(p.autoStart))), (Scale, Decimal(p.scale)),
     (Aspect, Decimal(p.aspect)), (Fit, Decimal(p.fit)), (Fullscreen, Decimal(Flag(p.fullscreen))),
     (Width, Decimal(p.width)), (Height, Decimal(p.height))]
  }

  function Optional(field: Field, value: string): seq<(Field, string)> {
    if value == "" then [] else [(field, value)]
  }

  function Strings(p: Settings): seq<(Field, string)> {
    Optional(XemuOverride, p.xemuOverride)
    + Optional(PreservationDirectory, p.preservationDirectory)
    + Optional(DeviceId, p.deviceId)
    + (if p.deviceId != "" then Optional(DeviceLabel, p.deviceLabel) else [])
  }

  // The lines written, in order.
  function Written(p: Settings): seq<(Field, string)> {
    Numbers(p) + Strings(p)
  }

  function Text(lines: seq<(Field, string)>): string {
    if lines == [] then "" else Line(lines[0].0, lines[0].1) + Text(lines[1..])
  }

  function Encode(p: Settings): string {
    Text(Written(p))
  }

  // What `gdox_preferences_save` puts in its buffer; it refuses settings that
  // are not savable and text that does not fit.
  method Save(p: Settings) returns (text: Option<string>)
    requires Stored(p)
    ensures text == if Savable(p) then Some(Encode(p)) else None
    ensures text.Some? ==> |text.value| < TEXT_CAPACITY <= READ_LIMIT
  {
    if !Savable(p) {
      return None;
    }
    TextFits(p);
    return Some(Encode(p));
  }

  // ---------------------------------------------------------------------
  // Decoding

  datatype Decoded = Decoded(settings: Settings, seen: set<Field>)

  function Claim(d: Decoded, field: Field, settings: Settings): Option<Decoded> {
    if field in d.seen then None else Some(Decoded(settings, d.seen + {field}))
  }

  predicate StringField(field: Field) {
    field.XemuOverride? || field.PreservationDirectory? || field.DeviceId? || field.DeviceLabel?
  }

  function AssignString(d: Decoded, field: Field, value: string): Option<Decoded>
    requires StringField(field)
  {
    var p := d.settings;
    var capacity := if field.DeviceId? then DEVICE_ID_CAPACITY
                    else if field.DeviceLabel? then LABEL_CAPACITY else PATH_CAPACITY;
    if |value| >= capacity then None
    else Claim(d, field,
      match field
      case XemuOverride => p.(xemuOverride := value)
      case PreservationDirectory => p.(preservationDirectory := value)
      case DeviceId => p.(deviceId := value)
      case DeviceLabel => p.(deviceLabel := value))
  }

  predicate NumericField(field: Field) {
    !StringField(field) && !field.HddOverride?
  }

  function AssignNumber(d: Decoded, field: Field, value: nat): Option<Decoded>
    requires NumericField(field)
  {
    var p := d.settings;
    match field
    case Schema => if value != 1 then None else Claim(d, field, p)
    case AutoStart => if value > 1 then None else Claim(d, field, p.(autoStart := value != 0))
    case Scale => if value < 1 || value > 10 then None else Claim(d, field, p.(scale := value))
    case Aspect => if value > ASPECT_NATIVE then None else Claim(d, field, p.(aspect := value))
    case Fit => if value > FIT_STRETCH then None else Claim(d, field, p.(fit := value))
    case Fullscreen => if value > 1 then None else Claim(d, field, p.(fullscreen := value != 0))
    case Width => if value < 640 || value > 7680 then None else Claim(d, field, p.(width := value))
    case Height => if value < 480 || value > 4320 then None else Claim(d, field, p.(height := value))
  }

  // An unknown key is ignored, provided its value is a number.
  function Assign(d: Decoded, key: string, value: string): Option<Decoded> {
    match FieldOf(key)
    case Some(HddOverride) => Claim(d, HddOverride, d.settings)
    case Some(field) =>
      if !NumericField(field) then AssignString(d, field, value)
      else
        var number := ParseUnsigned(value);
        if number.None? then None else AssignNumber(d, field, number.value)
    case None => if ParseUnsigned(value).None? then None else Some(d)
  }

  function AssignLine(d: Decoded, line: string): Option<Decoded> {
    if line == "" then Some(d)
    else
      var equals := IndexOf(line, '=');
      if equals == |line| || equals == 0 || equals + 1 == |line| then None
      else Assign(d, line[..equals], line[equals + 1..])
  }

  // A carriage return in front of the line end is dropped.
  function TrimReturn(line: string): string {
    if line != "" && line[|line| - 1] == '\r' then line[..|line| - 1] else line
  }

  function DecodeLines(text: string, d: Decoded): Option<Decoded>
    decreases |text|
  {
    if text == "" then Some(d)
    else
      var newline := IndexOf(text, '\n');
      var after := AssignLine(d, TrimReturn(text[..newline]));
      if after.None? || newline == |text| then after
      else DecodeLines(text[newline + 1..], after.value)
  }

  const NOTHING: Decoded := Decoded(DEFAULTS, {})

  function Decode(text: string): Option<Settings> {
    var d := DecodeLines(text, NOTHING);
    if d.Some? && Schema in d.value.seen then Some(d.value.settings) else None
  }

  lemma EmptyDecodes(d: Decoded)
    ensures DecodeLines("", d) == Some(d)
  {
  }

  lemma FirstLineDecodes(text: string, d: Decoded)
    requires text != ""
    ensures var newline := IndexOf(text, '\n');
            var after := AssignLine(d, TrimReturn(text[..newline]));
            DecodeLines(text, d)
            == if after.None? || newline == |text| then after else DecodeLines(text[newline + 1..], after.value)
  {
  }

  // The cursor loop.
  method DecodeText(text: string) returns (settings: Option<Settings>)
    ensures settings == Decode(text)
  {
    hide AssignLine, TrimReturn, DecodeLines;
    var cursor := 0;
    var d := NOTHING;
    assert text[0..] == text;
    EmptyDecodes(d);
    while cursor < |text|
      invariant 0 <= cursor <= |text|
      invariant DecodeLines(text, NOTHING) == DecodeLines(text[cursor..], d)
    {
      var rest := text[cursor..];
      FirstLineDecodes(rest, d);
      var newline := IndexOf(rest, '\n');
      var line := TrimReturn(rest[..newline]);
      var after := AssignLine(d, line);
      if after.None? {
        return None;
      }
      d := after.value;
      EmptyDecodes(d);
      if newline == |rest| {
        return if Schema in d.seen then Some(d.settings) else None;
      }
      assert rest[newline + 1..] == text[cursor + newline + 1..];
      cursor := cursor + newline + 1;
    }
    assert text[cursor..] == "";
    EmptyDecodes(d);
    return if Schema in d.seen then Some(d.settings) else None;
  }

  // ---------------------------------------------------------------------
  // The round trip

  // The value a line gives its field.
  function Put(p: Settings, field: Field, value: string): Settings {
    match field
    case AutoStart => p.(autoStart := ParseUnsigned(value) != Some(0))
    case Scale => if ParseUnsigned(value).Some? then p.(scale := ParseUnsigned(value).value) else p
    case Aspect => if ParseUnsigned(value).Some? then p.(aspect := ParseUnsigned(value).value) else p
    case Fit => if ParseUnsigned(value).Some? then p.(fit := ParseUnsigned(value).value) else p
    case Fullscreen => p.(fullscreen := ParseUnsigned(value) != Some(0))
    case Width => if ParseUnsigned(value).Some? then p.(width := ParseUnsigned(value).value) else p
    case Height => if ParseUnsigned(value).Some? then p.(height := ParseUnsigned(value).value) else p
    case XemuOverride => p.(xemuOverride := value)
    case PreservationDirectory => p.(preservationDirectory := value)
    case DeviceId => p.(deviceId := value)
    case DeviceLabel => p.(deviceLabel := value)
    case _ => p
  }

  // A line the decoder accepts as the first one for its field.
  predicate GoodLine(field: Field, value: string) {
    && value != "" && PlainText(value)
    && match field
       case Schema => ParseUnsigned(value) == Some(1)
       case AutoStart => ParseUnsigned(value).Some? && ParseUnsigned(value).value <= 1
       case Scale => ParseUnsigned(value).Some? && 1 <= ParseUnsigned(value).value <= 10
       case Aspect => ParseUnsigned(value).Some? && ParseUnsigned(value).value <= ASPECT_NATIVE
       case Fit => ParseUnsigned(value).Some? && ParseUnsigned(value).value <= FIT_STRETCH
       case Fullscreen => ParseUnsigned(value).Some? && ParseUnsigned(value).value <= 1
       case Width => ParseUnsigned(value).Some? && 640 <= ParseUnsigned(value).value <= 7680
       case Height => ParseUnsigned(value).Some? && 480 <= ParseUnsigned(value).value <= 4320
       case XemuOverride => |value| < PATH_CAPACITY
       case PreservationDirectory => |value| < PATH_CAPACITY
       case DeviceId => |value| < DEVICE_ID_CAPACITY
       case DeviceLabel => |value| < LABEL_CAPACITY
       case HddOverride => true
  }

  lemma GoodLineAssigns(d: Decoded, field: Field, value: string)
    requires GoodLine(field, value) && field !in d.seen
    ensures Assign(d, Key(field), value) == Some(Decoded(Put(d.settings, field, value), d.seen + {field}))
  {
    hide ParseUnsigned, Key, FieldOf, PlainText;
    KeyFinds(field);
  }

  // A line of a key is split where it was put together.
  lemma LineIsAssigned(d: Decoded, field: Field, value: string, rest: string)
    requires value != "" && '\n' !in value && value[|value| - 1] != '\r'
    ensures var after := Assign(d, Key(field), value);
            DecodeLines(Line(field, value) + rest, d)
            == if after.None? then None else DecodeLines(rest, after.value)
  {
    hide Assign, Key, FieldOf, DecodeLines;
    var line := Key(field) + "=" + value;
    KeyFinds(field);
    var text := Line(field, value) + rest;
    assert text == line + ['\n'] + rest;
    IndexOfFirst(line, '\n', rest);
    assert text[..|line|] == line && text[|line| + 1..] == rest;
    FirstLineDecodes(text, d);
    assert line[|line| - 1] == value[|value| - 1];
    assert TrimReturn(line) == line;
    assert line == Key(field) + ['='] + value;
    IndexOfFirst(Key(field), '=', value);
    assert line[..|Key(field)|] == Key(field) && line[|Key(field)| + 1..] == value;
  }

  lemma LineDecodes(d: Decoded, field: Field, value: string, rest: string)
    requires GoodLine(field, value) && field !in d.seen
    ensures DecodeLines(Line(field, value) + rest, d)
         == DecodeLines(rest, Decoded(Put(d.settings, field, value), d.seen + {field}))
  {
    hide GoodLine, Put, Assign, Key, FieldOf, DecodeLines, Line;
    GoodLineIsPlain(field, value);
    GoodLineAssigns(d, field, value);
    LineIsAssigned(d, field, value, rest);
  }

  lemma GoodLineIsPlain(field: Field, value: string)
    requires GoodLine(field, value)
    ensures value != "" && PlainText(value)
  {
  }

  function PutAll(p: Settings, lines: seq<(Field, string)>): Settings
    decreases |lines|
  {
    if lines == [] then p else PutAll(Put(p, lines[0].0, lines[0].1), lines[1..])
  }

  predicate GoodLines(lines: seq<(Field, string)>) {
    && (forall i :: 0 <= i < |lines| ==> GoodLine(lines[i].0, lines[i].1))
    && (forall i, j :: 0 <= i < j < |lines| ==> lines[i].0 != lines[j].0)
  }

  ghost function Fields(lines: seq<(Field, string)>): set<Field> {
    set i | 0 <= i < |lines| :: lines[i].0
  }

  lemma {:induction false} LinesDecode(lines: seq<(Field, string)>, d: Decoded)
    requires GoodLines(lines)
    requires forall i :: 0 <= i < |lines| ==> lines[i].0 !in d.seen
    ensures DecodeLines(Text(lines), d)
         == Some(Decoded(PutAll(d.settings, lines), d.seen + Fields(lines)))
    decreases |lines|
  {
    hide GoodLine, Put, Line, Claim, DecodeLines;
    if lines == [] {
      EmptyDecodes(d);
      assert Fields(lines) == {};
      assert d.seen + Fields(lines) == d.seen;
    } else {
      var (field, value) := lines[0];
      var rest := lines[1..];
      LineDecodes(d, field, value, Text(rest));
      var next := Decoded(Put(d.settings, field, value), d.seen + {field});
      LinesDecode(rest, next);
      assert d.seen + Fields(lines)
          == next.seen + Fields(rest) by {
        assert forall i :: 0 <= i < |rest| ==> rest[i] == lines[i + 1];
        assert forall i :: 1 <= i < |lines| ==> lines[i] == rest[i - 1];
      }
    }
  }

  // ---------------------------------------------------------------------
  // What is written is good, complete and small

  ghost predicate GoodFields(lines: seq<(Field, string)>) {
    forall i :: 0 <= i < |lines| ==> GoodLine(lines[i].0, lines[i].1)
  }

  lemma NumbersAreGood(p: Settings)
    requires Savable(p)
    ensures GoodFields(Numbers(p))
  {
    hide ParseUnsigned, Decimal;
    SmallDecimal(1);
    SmallDecimal(Flag(p.autoStart));
    SmallDecimal(Flag(p.fullscreen));
    SmallDecimal(p.scale);
    SmallDecimal(p.aspect);
    SmallDecimal(p.fit);
    SmallDecimal(p.width);
    SmallDecimal(p.height);
  }

  lemma StringsAreGood(p: Settings)
    requires Savable(p) && Stored(p)
    ensures GoodFields(Strings(p))
  {
  }

  lemma WrittenGood(p: Settings)
    requires Savable(p) && Stored(p)
    ensures GoodLines(Written(p))
  {
    NumbersAreGood(p);
    StringsAreGood(p);
    hide GoodLine, Decimal;
  }

  lemma {:induction false} PutAllConcat(p: Settings, a: seq<(Field, string)>, b: seq<(Field, string)>)
    ensures PutAll(p, a + b) == PutAll(PutAll(p, a), b)
    decreases |a|
  {
    hide Put;
    if a == [] {
      assert a + b == b;
    } else {
      assert (a + b)[1..] == a[1..] + b;
      PutAllConcat(Put(p, a[0].0, a[0].1), a[1..], b);
    }
  }

  lemma PutOne(p: Settings, line: (Field, string))
    ensures PutAll(p, [line]) == Put(p, line.0, line.1)
  {
  }

  // What the strings of `p` leave of the record `q`.
  lemma PutStrings(q: Settings, p: Settings)
    requires q.xemuOverride == "" && q.preservationDirectory == "" && q.deviceId == "" && q.deviceLabel == ""
    ensures PutAll(q, Strings(p)) == q.(
              xemuOverride := p.xemuOverride, preservationDirectory := p.preservationDirectory,
              deviceId := p.deviceId, deviceLabel := if p.deviceId == "" then "" else p.deviceLabel)
  {
    var a := Optional(XemuOverride, p.xemuOverride);
    var b := Optional(PreservationDirectory, p.preservationDirectory);
    var c := Optional(DeviceId, p.deviceId);
    var d := if p.deviceId != "" then Optional(DeviceLabel, p.deviceLabel) else [];
    PutAllConcat(q, a + b + c, d);
    PutAllConcat(q, a + b, c);
    PutAllConcat(q, a, b);
    PutOptional(q, XemuOverride, p.xemuOverride);
    PutOptional(PutAll(q, a), PreservationDirectory, p.preservationDirectory);
    PutOptional(PutAll(PutAll(q, a), b), DeviceId, p.deviceId);
    PutOptional(PutAll(PutAll(PutAll(q, a), b), c), DeviceLabel, p.deviceLabel);
  }

  lemma PutOptional(q: Settings, field: Field, value: string)
    ensures PutAll(q, Optional(field, value)) == if value == "" then q else Put(q, field, value)
  {
  }

  lemma PutNumbers(p: Settings)
    requires Savable(p)
    ensures PutAll(DEFAULTS, Numbers(p))
         == p.(xemuOverride := "", preservationDirectory := "", deviceId := "", deviceLabel := "")
  {
    hide ParseUnsigned, Decimal;
    SmallDecimal(Flag(p.autoStart));
    SmallDecimal(p.scale);
    SmallDecimal(p.aspect);
    SmallDecimal(p.fit);
    SmallDecimal(Flag(p.fullscreen));
    SmallDecimal(p.width);
    SmallDecimal(p.height);
    var (a, b, c) := (Decimal(Flag(p.autoStart)), Decimal(p.scale), Decimal(p.aspect));
    var (d, e, f, g) := (Decimal(p.fit), Decimal(Flag(p.fullscreen)), Decimal(p.width), Decimal(p.height));
    PutFour(DEFAULTS, (Schema, Decimal(1)), (AutoStart, a), (Scale, b), (Aspect, c));
    var q := DEFAULTS.(autoStart := p.autoStart, scale := p.scale, aspect := p.aspect);
    PutFour(q, (Fit, d), (Fullscreen, e), (Width, f), (Height, g));
    var first := [(Schema, Decimal(1)), (AutoStart, a), (Scale, b), (Aspect, c)];
    var second := [(Fit, d), (Fullscreen, e), (Width, f), (Height, g)];
    assert Numbers(p) == first + second;
    PutAllConcat(DEFAULTS, first, second);
  }

  type FieldLine = (Field, string)

  lemma PutFour(q: Settings, a: FieldLine, b: FieldLine, c: FieldLine, d: FieldLine)
    ensures PutAll(q, [a, b, c, d]) == Put(Put(Put(Put(q, a.0, a.1), b.0, b.1), c.0, c.1), d.0, d.1)
  {
    hide Put;
    assert [a, b, c, d][1..] == [b, c, d] && [b, c, d][1..] == [c, d] && [c, d][1..] == [d];
    var p := Put(q, a.0, a.1);
    assert PutAll(q, [a, b, c, d]) == PutAll(p, [b, c, d]);
    assert PutAll(p, [b, c, d]) == PutAll(Put(p, b.0, b.1), [c, d]);
    PutOne(Put(Put(p, b.0, b.1), c.0, c.1), d);
  }

  lemma {:induction false} TextConcat(a: seq<(Field, string)>, b: seq<(Field, string)>)
    ensures Text(a + b) == Text(a) + Text(b)
    decreases |a|
  {
    hide Line;
    if a == [] {
      assert a + b == b;
    } else {
      assert (a + b)[1..] == a[1..] + b;
      TextConcat(a[1..], b);
    }
  }

  lemma {:induction false} ShortLines(lines: seq<(Field, string)>)
    requires forall i :: 0 <= i < |lines| ==> |lines[i].1| <= 4
    ensures |Text(lines)| <= 31 * |lines|
  {
    if lines != [] {
      KeyFinds(lines[0].0);
      ShortLines(lines[1..]);
    }
  }

  lemma OptionalFits(field: Field, value: string)
    ensures |Text(Optional(field, value))| <= 27 + |value|
  {
  }

  lemma StringsFit(p: Settings)
    requires Stored(p)
    ensures |Text(Strings(p))| <= 4 * 27 + 2 * (PATH_CAPACITY - 1) + DEVICE_ID_CAPACITY - 1 + LABEL_CAPACITY - 1
  {
    hide Text, Key;
    var a := Optional(XemuOverride, p.xemuOverride);
    var b := Optional(PreservationDirectory, p.preservationDirectory);
    var c := Optional(DeviceId, p.deviceId);
    var d := if p.deviceId != "" then Optional(DeviceLabel, p.deviceLabel) else [];
    TextConcat(a + b + c, d);
    TextConcat(a + b, c);
    TextConcat(a, b);
    OptionalFits(XemuOverride, p.xemuOverride);
    OptionalFits(PreservationDirectory, p.preservationDirectory);
    OptionalFits(DeviceId, p.deviceId);
    OptionalFits(DeviceLabel, if p.deviceId != "" then p.deviceLabel else "");
  }

  // The text fits the buffer it is built in, and so the limit on reading.
  lemma TextFits(p: Settings)
    requires Savable(p) && Stored(p)
    ensures |Encode(p)| < TEXT_CAPACITY <= READ_LIMIT
  {
    hide Text, Decimal, ParseUnsigned;
    TextConcat(Numbers(p), Strings(p));
    StringsFit(p);
    SmallDecimal(1);
    SmallDecimal(Flag(p.autoStart));
    SmallDecimal(Flag(p.fullscreen));
    SmallDecimal(p.scale);
    SmallDecimal(p.aspect);
    SmallDecimal(p.fit);
    SmallDecimal(p.width);
    SmallDecimal(p.height);
    ShortLines(Numbers(p));
  }

  // A saved file is always loadable and gives back the same settings, except
  // that a label without a device is not written.
  lemma RoundTrip(p: Settings)
    requires Savable(p) && Stored(p)
    ensures Decode(Encode(p)) == Some(if p.deviceId == "" then p.(deviceLabel := "") else p)
  {
    hide Decimal, ParseUnsigned, Put, GoodLine, Text, DecodeLines, PutAll;
    WrittenGood(p);
    LinesDecode(Written(p), NOTHING);
    PutAllConcat(DEFAULTS, Numbers(p), Strings(p));
    PutNumbers(p);
    PutStrings(PutAll(DEFAULTS, Numbers(p)), p);
    assert Written(p)[0].0 == Schema;
    assert Schema in Fields(Written(p));
  }

  // ---------------------------------------------------------------------
  // What can be loaded but not saved

  // Everything but the carriage returns.
  predicate Loadable(p: Settings) {
    && Stored(p)
    && 1 <= p.scale <= 10 && p.aspect <= ASPECT_NATIVE && p.fit <= FIT_STRETCH
    && 640 <= p.width <= 7680 && 480 <= p.height <= 4320
    && '\n' !in p.xemuOverride && '\n' !in p.preservationDirectory
    && '\n' !in p.deviceId && '\n' !in p.deviceLabel
  }

  lemma AssignKeepsLoadable(d: Decoded, key: string, value: string)
    requires Loadable(d.settings) && '\n' !in value && Assign(d, key, value).Some?
    ensures Loadable(Assign(d, key, value).value.settings)
  {
    hide FieldOf, ParseUnsigned, Key, AssignString, AssignNumber, Loadable;
    match FieldOf(key) {
      case Some(field) =>
        if StringField(field) {
          AssignStringKeepsLoadable(d, field, value);
        } else if NumericField(field) && ParseUnsigned(value).Some? {
          AssignNumberKeepsLoadable(d, field, ParseUnsigned(value).value);
        }
      case None =>
    }
  }

  lemma AssignStringKeepsLoadable(d: Decoded, field: Field, value: string)
    requires Loadable(d.settings) && '\n' !in value && StringField(field) && AssignString(d, field, value).Some?
    ensures Loadable(AssignString(d, field, value).value.settings)
  {
  }

  lemma AssignNumberKeepsLoadable(d: Decoded, field: Field, value: nat)
    requires Loadable(d.settings) && NumericField(field) && AssignNumber(d, field, value).Some?
    ensures Loadable(AssignNumber(d, field, value).value.settings)
  {
  }

  lemma AssignLineKeepsLoadable(d: Decoded, line: string)
    requires Loadable(d.settings) && '\n' !in line && AssignLine(d, line).Some?
    ensures Loadable(AssignLine(d, line).value.settings)
  {
    hide Assign, Loadable;
    if line != "" {
      var equals := IndexOf(line, '=');
      AssignKeepsLoadable(d, line[..equals], line[equals + 1..]);
    }
  }

  lemma {:induction false} DecodingKeepsLoadable(text: string, d: Decoded)
    requires Loadable(d.settings) && DecodeLines(text, d).Some?
    ensures Loadable(DecodeLines(text, d).value.settings)
    decreases |text|
  {
    hide AssignLine, Loadable;
    if text != "" {
      var newline := IndexOf(text, '\n');
      AssignLineKeepsLoadable(d, TrimReturn(text[..newline]));
      if newline < |text| {
        DecodingKeepsLoadable(text[newline + 1..], AssignLine(d, TrimReturn(text[..newline])).value);
      }
    }
  }

  predicate HasReturn(p: Settings) {
    '\r' in p.xemuOverride || '\r' in p.preservationDirectory || '\r' in p.deviceId || '\r' in p.deviceLabel
  }

  // The lines of a text, without a last empty one.
  function Lines(text: string): seq<string>
    decreases |text|
  {
    if text == "" then []
    else
      var newline := IndexOf(text, '\n');
      if newline == |text| then [text] else [text[..newline]] + Lines(text[newline + 1..])
  }

  // A line that gives a string setting, and has a carriage return in front of
  // its line end.
  predicate ReturnLine(line: string) {
    var trimmed := TrimReturn(line);
    var equals := IndexOf(trimmed, '=');
    && equals < |trimmed| && '\r' in trimmed[equals + 1..]
    && FieldOf(trimmed[..equals]).Some? && StringField(FieldOf(trimmed[..equals]).value)
  }

  // A string setting that no line has given yet is empty.
  predicate UnseenEmpty(d: Decoded) {
    && (XemuOverride !in d.seen ==> d.settings.xemuOverride == "")
    && (PreservationDirectory !in d.seen ==> d.settings.preservationDirectory == "")
    && (DeviceId !in d.seen ==> d.settings.deviceId == "")
    && (DeviceLabel !in d.seen ==> d.settings.deviceLabel == "")
  }

  lemma AssignReturn(d: Decoded, key: string, value: string)
    requires UnseenEmpty(d) && Assign(d, key, value).Some?
    ensures var after := Assign(d, key, value).value;
            && UnseenEmpty(after)
            && (HasReturn(after.settings) <==>
                  HasReturn(d.settings)
                  || ('\r' in value && FieldOf(key).Some? && StringField(FieldOf(key).value)))
  {
    hide FieldOf, Key, ParseUnsigned, AssignString, AssignNumber, HasReturn;
    match FieldOf(key) {
      case Some(field) =>
        if StringField(field) {
          AssignStringReturn(d, field, value);
        } else if NumericField(field) && ParseUnsigned(value).Some? {
          AssignNumberReturn(d, field, ParseUnsigned(value).value);
        }
      case None =>
    }
  }

  lemma AssignStringReturn(d: Decoded, field: Field, value: string)
    requires UnseenEmpty(d) && StringField(field) && AssignString(d, field, value).Some?
    ensures var after := AssignString(d, field, value).value;
            UnseenEmpty(after) && (HasReturn(after.settings) <==> HasReturn(d.settings) || '\r' in value)
  {
  }

  lemma AssignNumberReturn(d: Decoded, field: Field, value: nat)
    requires UnseenEmpty(d) && NumericField(field) && AssignNumber(d, field, value).Some?
    ensures var after := AssignNumber(d, field, value).value;
            UnseenEmpty(after) && (HasReturn(after.settings) <==> HasReturn(d.settings))
  {
  }

  lemma AssignLineReturn(d: Decoded, line: string)
    requires UnseenEmpty(d) && AssignLine(d, TrimReturn(line)).Some?
    ensures var after := AssignLine(d, TrimReturn(line)).value;
            UnseenEmpty(after) && (HasReturn(after.settings) <==> HasReturn(d.settings) || ReturnLine(line))
  {
    hide Assign, FieldOf, HasReturn, UnseenEmpty, TrimReturn, StringField;
    var trimmed := TrimReturn(line);
    if trimmed != "" {
      var equals := IndexOf(trimmed, '=');
      AssignReturn(d, trimmed[..equals], trimmed[equals + 1..]);
    }
  }

  lemma {:induction false} DecodedReturns(text: string, d: Decoded)
    requires UnseenEmpty(d) && DecodeLines(text, d).Some?
    ensures HasReturn(DecodeLines(text, d).value.settings) <==>
              HasReturn(d.settings) || exists line :: line in Lines(text) && ReturnLine(line)
    decreases |text|
  {
    hide HasReturn, UnseenEmpty, ReturnLine, AssignLine, TrimReturn, DecodeLines;
    if text == "" {
      EmptyDecodes(d);
    } else {
      FirstLineDecodes(text, d);
      var newline := IndexOf(text, '\n');
      var line := text[..newline];
      AssignLineReturn(d, line);
      if newline == |text| {
        assert line == text && Lines(text) == [text];
      } else {
        var rest := text[newline + 1..];
        assert Lines(text) == [line] + Lines(rest);
        DecodedReturns(rest, AssignLine(d, TrimReturn(line)).value);
      }
    }
  }

  // A file the decoder accepts can be saved again exactly when no line that
  // gives a string setting has a carriage return in front of its line end; the
  // decoder only drops one at the end of a line.
  lemma LoadedIsSavableWithoutReturns(text: string)
    ensures Decode(text).Some? ==>
              && Stored(Decode(text).value)
              && (Savable(Decode(text).value) <==> forall line :: line in Lines(text) ==> !ReturnLine(line))
  {
    hide DecodeLines, ReturnLine, Lines;
    if Decode(text).Some? {
      DecodingKeepsLoadable(text, NOTHING);
      DecodedReturns(text, NOTHING);
    }
  }

  lemma AcceptedLine(d: Decoded, field: Field, value: string, rest: string)
    requires field.XemuOverride? && field !in d.seen && value != "" && |value| < PATH_CAPACITY
    requires '\n' !in value && value[|value| - 1] != '\r'
    ensures DecodeLines(Line(field, value) + rest, d)
         == DecodeLines(rest, Decoded(d.settings.(xemuOverride := value), d.seen + {field}))
  {
    hide Key, FieldOf, DecodeLines, Line;
    KeyFinds(field);
    LineIsAssigned(d, field, value, rest);
  }

  // Such a file exists: a return inside the path of the emulator is loaded
  // and then refused by every save.
  lemma SomeLoadedSettingsCannotBeSaved()
    ensures var p := DEFAULTS.(xemuOverride := "a\rb");
            Decode(Line(Schema, Decimal(1)) + Line(XemuOverride, "a\rb")) == Some(p) && !Savable(p)
  {
    hide Line, Key, FieldOf, Decimal, ParseUnsigned;
    var p := DEFAULTS.(xemuOverride := "a\rb");
    SmallDecimal(1);
    var second := Line(XemuOverride, "a\rb");
    LineDecodes(NOTHING, Schema, Decimal(1), second);
    AcceptedLine(Decoded(DEFAULTS, {Schema}), XemuOverride, "a\rb", "");
    assert second + "" == second;
    assert NOTHING.seen + {Schema} == {Schema};
    assert Schema in {Schema} + {XemuOverride};
    assert "a\rb"[1] == '\r' && '\r' in p.xemuOverride;
  }
}
