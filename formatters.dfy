/** The payload builders of src/lib/formatters.ts: each turns the fields of
    one content form into the text the code will carry, plus the client-side
    content classifier. `encodeURIComponent` is not modelled; the functions
    that use it take it as the parameter `enc`. */
module Formatters {
  import opened Wrappers
  import opened Text
  import opened ContentType

  // ---------------------------------------------------------------- WiFi

  datatype Encryption = WPA | WEP | NoPass {
    function Name(): string {
      match this
      case WPA => "WPA"
      case WEP => "WEP"
      case NoPass => "nopass"
    }
  }

  datatype WifiConfig = WifiConfig(ssid: string, password: string, encryption: Encryption, hidden: bool)

  /** JavaScript `s.replace(/c/g, rep)` for a single character `c`. */
  function ReplaceAll(s: string, c: char, rep: string): string {
    if s == [] then [] else (if s[0] == c then rep else [s[0]]) + ReplaceAll(s[1..], c, rep)
  }

  /** `escapeWifiField`: four global replacements applied in turn, the
      backslash first. */
  function EscapeWifiField(value: string): string {
    ReplaceAll(ReplaceAll(ReplaceAll(ReplaceAll(value, '\\', "\\\\"), ';', "\\;"), ':', "\\:"), '"', "\\\"")
  }

  /** The characters the WiFi payload syntax reserves. */
  predicate Reserved(c: char) {
    c == '\\' || c == ';' || c == ':' || c == '"'
  }

  /** Reference definition: each reserved character gets a backslash in front,
      every other character is copied. */
  function EscapeChar(c: char): string {
    if Reserved(c) then ['\\', c] else [c]
  }

  function EscapeEach(s: string): string {
    if s == [] then [] else EscapeChar(s[0]) + EscapeEach(s[1..])
  }

  lemma {:induction false} ReplaceAllAppend(a: string, b: string, c: char, rep: string)
    ensures ReplaceAll(a + b, c, rep) == ReplaceAll(a, c, rep) + ReplaceAll(b, c, rep)
  {
    if a == [] {
      assert a + b == b;
    }
    if a != [] {
      assert (a + b)[0] == a[0];
      assert (a + b)[1..] == a[1..] + b;
      ReplaceAllAppend(a[1..], b, c, rep);
    }
  }

  lemma {:induction false} ReplaceAbsent(s: string, c: char, rep: string)
    requires c !in s
    ensures ReplaceAll(s, c, rep) == s
  {
    if s != [] {
      ReplaceAbsent(s[1..], c, rep);
    }
  }

  lemma ReplaceOne(x: char, c: char, rep: string)
    ensures ReplaceAll([x], c, rep) == if x == c then rep else [x]
  {
    assert [x][1..] == [];
  }

  lemma EscapeAppend(a: string, b: string)
    ensures EscapeWifiField(a + b) == EscapeWifiField(a) + EscapeWifiField(b)
  {
    ReplaceAllAppend(a, b, '\\', "\\\\");
    var a1, b1 := ReplaceAll(a, '\\', "\\\\"), ReplaceAll(b, '\\', "\\\\");
    ReplaceAllAppend(a1, b1, ';', "\\;");
    var a2, b2 := ReplaceAll(a1, ';', "\\;"), ReplaceAll(b1, ';', "\\;");
    ReplaceAllAppend(a2, b2, ':', "\\:");
    var a3, b3 := ReplaceAll(a2, ':', "\\:"), ReplaceAll(b2, ':', "\\:");
    ReplaceAllAppend(a3, b3, '"', "\\\"");
  }

  lemma EscapeOne(x: char)
    ensures EscapeWifiField([x]) == EscapeChar(x)
  {
    ReplaceOne(x, '\\', "\\\\");
    if x == '\\' {
      ReplaceAbsent("\\\\", ';', "\\;");
      ReplaceAbsent("\\\\", ':', "\\:");
      ReplaceAbsent("\\\\", '"', "\\\"");
    } else {
      ReplaceOne(x, ';', "\\;");
      if x == ';' {
        ReplaceAbsent("\\;", ':', "\\:");
        ReplaceAbsent("\\;", '"', "\\\"");
      } else {
        ReplaceOne(x, ':', "\\:");
        if x == ':' {
          ReplaceAbsent("\\:", '"', "\\\"");
        } else {
          ReplaceOne(x, '"', "\\\"");
        }
      }
    }
  }

  /** The chain of four replacements equals escaping character by character:
      backslashes are doubled first, so no later replacement meets a
      backslash it introduced itself. */
  lemma {:induction false} EscapeIsPerCharacter(s: string)
    ensures EscapeWifiField(s) == EscapeEach(s)
  {
    if s != [] {
      assert s == [s[0]] + s[1..];
      EscapeAppend([s[0]], s[1..]);
      EscapeOne(s[0]);
      EscapeIsPerCharacter(s[1..]);
    }
  }

  /** Drops each backslash and keeps the character after it. */
  function Unescape(s: string): string
    decreases |s|
  {
    if s == [] then []
    else if s[0] == '\\' && |s| >= 2 then [s[1]] + Unescape(s[2..])
    else [s[0]] + Unescape(s[1..])
  }

  /** Unescaping undoes `escapeWifiField`. */
  lemma {:induction false} UnescapeEscape(s: string)
    ensures Unescape(EscapeWifiField(s)) == s
  {
    EscapeIsPerCharacter(s);
    UnescapeEach(s);
  }

  lemma {:induction false} UnescapeEach(s: string)
    ensures Unescape(EscapeEach(s)) == s
  {
    if s != [] {
      var e := EscapeEach(s);
      UnescapeEach(s[1..]);
      if Reserved(s[0]) {
        assert e[2..] == EscapeEach(s[1..]);
      } else {
        assert e[1..] == EscapeEach(s[1..]);
      }
    }
  }

  /** Hence the escaper never maps two field values to the same text. */
  lemma EscapeInjective(a: string, b: string)
    requires EscapeWifiField(a) == EscapeWifiField(b)
    ensures a == b
  {
    UnescapeEscape(a);
    UnescapeEscape(b);
  }

  /** The password segment, written only for an encrypted network with a
      non-empty (truthy) password. */
  function PasswordSegment(c: WifiConfig): string {
    if c.encryption != NoPass && c.password != "" then "P:" + EscapeWifiField(c.password) + ";" else ""
  }

  function HiddenSegment(c: WifiConfig): string {
    if c.hidden then "H:true;" else ""
  }

  /** `formatWifi`: type and SSID, then the optional password and hidden
      segments, then the closing ';'. */
  function FormatWifi(c: WifiConfig): (r: string)
    ensures StartsWith(r, "WIFI:T:" + c.encryption.Name() + ";S:" + EscapeWifiField(c.ssid) + ";")
    ensures |r| >= 2 && r[|r| - 2..] == ";;"
  {
    "WIFI:T:" + c.encryption.Name() + ";S:" + EscapeWifiField(c.ssid) + ";" + PasswordSegment(c) + HiddenSegment(c) + ";"
  }

  /** The fields a WiFi payload carries, as a reader recovers them. */
  datatype WifiFields = WifiFields(encryption: string, ssid: string, password: Option<string>, hidden: bool)

  /** Reads one escaped field up to the first unescaped ';', returning the
      unescaped value and the text after the ';'. */
  function ReadField(s: string): Option<(string, string)>
    decreases |s|
  {
    if s == [] then None
    else if s[0] == ';' then Some(("", s[1..]))
    else if s[0] == '\\' then
      if |s| < 2 then None
      else match ReadField(s[2..])
        case None => None
        case Some(p) => Some(([s[1]] + p.0, p.1))
    else match ReadField(s[1..])
      case None => None
      case Some(p) => Some(([s[0]] + p.0, p.1))
  }

  lemma {:induction false} ReadEscaped(v: string, rest: string)
    ensures ReadField(EscapeEach(v) + ";" + rest) == Some((v, rest))
  {
    var s := EscapeEach(v) + ";" + rest;
    if v == [] {
      assert s == [';'] + rest;
      assert s[0] == ';' && s[1..] == rest;
    } else {
      var t := EscapeEach(v[1..]) + ";" + rest;
      ReadEscaped(v[1..], rest);
      assert s == EscapeChar(v[0]) + t;
      ReadStep(v[0], t, v[1..], rest);
      assert v == [v[0]] + v[1..];
    }
  }

  lemma ReadStep(x: char, t: string, v: string, rest: string)
    requires ReadField(t) == Some((v, rest))
    ensures ReadField(EscapeChar(x) + t) == Some(([x] + v, rest))
  {
    var s := EscapeChar(x) + t;
    if Reserved(x) {
      assert s == ['\\', x] + t;
      assert s[0] == '\\' && s[1] == x && s[2..] == t;
    } else {
      assert s == [x] + t;
      assert s[0] == x && s[1..] == t;
    }
  }

  lemma {:induction false} EscapeKeepsPlain(s: string)
    requires forall i :: 0 <= i < |s| ==> !Reserved(s[i])
    ensures EscapeEach(s) == s
  {
    if s != [] {
      EscapeKeepsPlain(s[1..]);
      assert s == [s[0]] + s[1..];
    }
  }

  /** A reader for WiFi payloads: the encryption, SSID, optional password and
      hidden flag, in the order `formatWifi` writes them. */
  function ParseWifi(s: string): Option<WifiFields> {
    if !StartsWith(s, "WIFI:T:") then None
    else match ReadField(s[7..])
      case None => None
      case Some(enc) => ParseSsid(enc.0, enc.1)
  }

  function ParseSsid(enc: string, r: string): Option<WifiFields> {
    if !StartsWith(r, "S:") then None
    else match ReadField(r[2..])
      case None => None
      case Some(ssid) => ParsePassword(enc, ssid.0, ssid.1)
  }

  function ParsePassword(enc: string, ssid: string, r: string): Option<WifiFields> {
    if StartsWith(r, "P:") then
      match ReadField(r[2..])
      case None => None
      case Some(pw) => ParseHidden(enc, ssid, Some(pw.0), pw.1)
    else ParseHidden(enc, ssid, None, r)
  }

  function ParseHidden(enc: string, ssid: string, password: Option<string>, r: string): Option<WifiFields> {
    if StartsWith(r, "H:true;") then
      if r[7..] == ";" then Some(WifiFields(enc, ssid, password, true)) else None
    else if r == ";" then Some(WifiFields(enc, ssid, password, false))
    else None
  }

  /** Reading a formatted WiFi payload recovers its fields: the password
      segment is there exactly when the network is encrypted and the password
      is non-empty, and the hidden segment exactly when the network is hidden. */
  lemma WifiRoundTrip(c: WifiConfig)
    ensures ParseWifi(FormatWifi(c)) == Some(WifiFields(c.encryption.Name(), c.ssid,
      if c.encryption != NoPass && c.password != "" then Some(c.password) else None, c.hidden))
  {
    var name := c.encryption.Name();
    var after := PasswordSegment(c) + HiddenSegment(c) + ";";
    var r := "S:" + EscapeWifiField(c.ssid) + ";" + after;
    assert FormatWifi(c) == "WIFI:T:" + name + ";" + r;
    EscapeKeepsPlain(name);
    ReadTypeStep(name, r);
    EscapeIsPerCharacter(c.ssid);
    ReadSsidStep(name, c.ssid, after);
    PasswordRoundTrip(c);
  }

  lemma ReadPasswordStep(name: string, ssid: string, password: string, tail: string)
    ensures ParsePassword(name, ssid, "P:" + EscapeEach(password) + ";" + tail) == ParseHidden(name, ssid, Some(password), tail)
  {
    var r := "P:" + EscapeEach(password) + ";" + tail;
    assert StartsWith(r, "P:");
    assert r[2..] == EscapeEach(password) + ";" + tail;
    ReadEscaped(password, tail);
  }

  lemma HiddenRoundTrip(enc: string, ssid: string, password: Option<string>, hidden: bool)
    ensures ParseHidden(enc, ssid, password, (if hidden then "H:true;" else "") + ";") == Some(WifiFields(enc, ssid, password, hidden))
  {
    var r := (if hidden then "H:true;" else "") + ";";
    if hidden {
      assert r == "H:true;;";
      assert r[7..] == ";";
    } else {
      assert r == ";";
    }
  }

  lemma ReadTypeStep(name: string, r: string)
    requires EscapeEach(name) == name
    ensures ParseWifi("WIFI:T:" + name + ";" + r) == ParseSsid(name, r)
  {
    var s := "WIFI:T:" + name + ";" + r;
    assert StartsWith(s, "WIFI:T:");
    assert s[7..] == EscapeEach(name) + ";" + r;
    ReadEscaped(name, r);
  }

  lemma ReadSsidStep(name: string, ssid: string, after: string)
    ensures ParseSsid(name, "S:" + EscapeEach(ssid) + ";" + after) == ParsePassword(name, ssid, after)
  {
    var r := "S:" + EscapeEach(ssid) + ";" + after;
    assert r[2..] == EscapeEach(ssid) + ";" + after;
    ReadEscaped(ssid, after);
  }

  lemma PasswordRoundTrip(c: WifiConfig)
    ensures ParsePassword(c.encryption.Name(), c.ssid, PasswordSegment(c) + HiddenSegment(c) + ";")
         == Some(WifiFields(c.encryption.Name(), c.ssid,
              if c.encryption != NoPass && c.password != "" then Some(c.password) else None, c.hidden))
  {
    var tail := HiddenSegment(c) + ";";
    var name := c.encryption.Name();
    if c.encryption != NoPass && c.password != "" {
      EscapeIsPerCharacter(c.password);
      assert PasswordSegment(c) + HiddenSegment(c) + ";" == "P:" + EscapeEach(c.password) + ";" + tail;
      ReadPasswordStep(name, c.ssid, c.password, tail);
      HiddenRoundTrip(name, c.ssid, Some(c.password), c.hidden);
    } else {
      assert PasswordSegment(c) + HiddenSegment(c) + ";" == tail;
      HiddenRoundTrip(name, c.ssid, None, c.hidden);
      DifferentFirst(tail, "P:");
    }
  }

  // ---------------------------------------------------------------- vCard

  datatype Address = Address(street: string, city: string, state: string, zip: string, country: string)

  /** A vCard form; an optional field that is absent is the empty string,
      which the program treats the same way (both are falsy). */
  datatype VCardConfig = VCardConfig(
    firstName: string, lastName: string,
    organization: string, title: string, email: string, phone: string, url: string,
    address: Option<Address>)

  /** `filter(Boolean)`: the non-empty strings, in order. */
  function NonEmpty(xs: seq<string>): (r: seq<string>)
    ensures forall i :: 0 <= i < |r| ==> r[i] != ""
  {
    if xs == [] then [] else (if xs[0] != "" then [xs[0]] else []) + NonEmpty(xs[1..])
  }

  /** The formatted name: the non-empty first and last names joined by one space. */
  function FullName(first: string, last: string): string {
    Join(NonEmpty([first, last]), " ")
  }

  lemma NonEmptyPair(first: string, last: string)
    ensures NonEmpty([first, last]) == (if first != "" then [first] else []) + (if last != "" then [last] else [])
  {
    assert [first, last][1..] == [last];
    assert [last][1..] == [];
    var t := if last != "" then [last] else [];
    assert NonEmpty([last]) == t + [];
    assert t + [] == t;
  }

  lemma FullNameCases(first: string, last: string)
    ensures first != "" && last != "" ==> FullName(first, last) == first + " " + last
    ensures first != "" && last == "" ==> FullName(first, last) == first
    ensures first == "" && last != "" ==> FullName(first, last) == last
    ensures first == "" && last == "" ==> FullName(first, last) == ""
  {
    NonEmptyPair(first, last);
    if first != "" && last != "" {
      assert NonEmpty([first, last]) == [first, last];
      assert [first, last][1..] == [last];
      assert Join([last], " ") == last;
      assert Join([first, last], " ") == first + " " + Join([last], " ");
    } else if first != "" {
      assert NonEmpty([first, last]) == [first];
    } else if last != "" {
      assert NonEmpty([first, last]) == [last];
    } else {
      assert NonEmpty([first, last]) == [];
    }
  }

  /** A content line: property name, ':', value. */
  function Line(name: string, value: string): string {
    name + ":" + value
  }

  /** An optional property line: present only when its value is non-empty. */
  function Property(name: string, value: string): seq<string> {
    if value != "" then [Line(name, value)] else []
  }

  function NValue(c: VCardConfig): string {
    c.lastName + ";" + c.firstName + ";;;"
  }

  /** The ADR template `;;street;city;state;zip;country`, grouped from the
      right. */
  function AdrValue(a: Address): string {
    ";" + (";" + (a.street + (";" + (a.city + (";" + (a.state + (";" + (a.zip + (";" + a.country)))))))))
  }

  /** The four lines every vCard starts with. */
  function HeadLines(c: VCardConfig): seq<string> {
    [Line("BEGIN", "VCARD"), Line("VERSION", "3.0"), Line("N", NValue(c)), Line("FN", FullName(c.firstName, c.lastName))]
  }

  function AdrLines(c: VCardConfig): seq<string> {
    if c.address.Some? then [Line("ADR", AdrValue(c.address.value))] else []
  }

  /** The optional single-value properties, each present when its field is
      non-empty. */
  function OptionalLines(c: VCardConfig): seq<string> {
    Property("ORG", c.organization)
    + Property("TITLE", c.title)
    + Property("TEL", c.phone)
    + Property("EMAIL", c.email)
    + Property("URL", c.url)
  }

  /** The lines `formatVCard` collects, in order. */
  function VCardLines(c: VCardConfig): seq<string> {
    HeadLines(c) + OptionalLines(c) + AdrLines(c) + [Line("END", "VCARD")]
  }

  /** `formatVCard`: the lines joined by line feeds. */
  function FormatVCard(c: VCardConfig): string {
    Join(VCardLines(c), "\n")
  }

  /** No field of the form holds a line feed. */
  predicate SingleLineFields(c: VCardConfig) {
    && '\n' !in c.firstName && '\n' !in c.lastName && '\n' !in c.organization
    && '\n' !in c.title && '\n' !in c.email && '\n' !in c.phone && '\n' !in c.url
    && (c.address.Some? ==>
          var a := c.address.value;
          '\n' !in a.street && '\n' !in a.city && '\n' !in a.state && '\n' !in a.zip && '\n' !in a.country)
  }

  lemma NonEmptyKeeps(xs: seq<string>, c: char)
    requires forall i :: 0 <= i < |xs| ==> c !in xs[i]
    ensures forall i :: 0 <= i < |NonEmpty(xs)| ==> c !in NonEmpty(xs)[i]
  {
    if xs != [] {
      NonEmptyKeeps(xs[1..], c);
    }
  }

  lemma {:induction false} JoinKeeps(parts: seq<string>, sep: string, c: char)
    requires c !in sep
    requires forall i :: 0 <= i < |parts| ==> c !in parts[i]
    ensures c !in Join(parts, sep)
    decreases |parts|
  {
    if |parts| > 1 {
      JoinKeeps(parts[1..], sep, c);
    }
  }

  /** No line holds a line feed. */
  predicate Clean(lines: seq<string>) {
    forall i :: 0 <= i < |lines| ==> '\n' !in lines[i]
  }

  lemma CleanAppend(a: seq<string>, b: seq<string>)
    requires Clean(a) && Clean(b)
    ensures Clean(a + b)
  {
    forall i | 0 <= i < |a + b| ensures '\n' !in (a + b)[i] {
      if i >= |a| { assert (a + b)[i] == b[i - |a|]; }
    }
  }

  lemma LineClean(name: string, value: string)
    requires '\n' !in name && '\n' !in value
    ensures '\n' !in Line(name, value)
  {
    NotInConcat('\n', name, ":");
    NotInConcat('\n', name + ":", value);
  }

  lemma HeadClean(c: VCardConfig)
    requires '\n' !in c.firstName && '\n' !in c.lastName
    ensures Clean(HeadLines(c))
  {
    NotInConcat('\n', c.lastName, ";");
    NotInConcat('\n', c.lastName + ";", c.firstName);
    NotInConcat('\n', c.lastName + ";" + c.firstName, ";;;");
    LineClean("N", NValue(c));
    NonEmptyKeeps([c.firstName, c.lastName], '\n');
    JoinKeeps(NonEmpty([c.firstName, c.lastName]), " ", '\n');
    LineClean("FN", FullName(c.firstName, c.lastName));
    LineClean("BEGIN", "VCARD");
    LineClean("VERSION", "3.0");
  }

  lemma AdrClean(c: VCardConfig)
    requires SingleLineFields(c)
    ensures Clean(AdrLines(c))
  {
    if c.address.Some? {
      var a := c.address.value;
      NotInConcat('\n', ";;", a.street);
      NotInConcat('\n', ";;" + a.street, ";");
      NotInConcat('\n', ";;" + a.street + ";", a.city);
      NotInConcat('\n', ";;" + a.street + ";" + a.city, ";");
      NotInConcat('\n', ";;" + a.street + ";" + a.city + ";", a.state);
      NotInConcat('\n', ";;" + a.street + ";" + a.city + ";" + a.state, ";");
      NotInConcat('\n', ";;" + a.street + ";" + a.city + ";" + a.state + ";", a.zip);
      NotInConcat('\n', ";;" + a.street + ";" + a.city + ";" + a.state + ";" + a.zip, ";");
      NotInConcat('\n', ";;" + a.street + ";" + a.city + ";" + a.state + ";" + a.zip + ";", a.country);
      LineClean("ADR", AdrValue(a));
    }
  }

  lemma PropertyClean(name: string, value: string)
    requires '\n' !in name && '\n' !in value
    ensures Clean(Property(name, value))
  {
    LineClean(name, value);
  }

  /** Splitting the payload at line feeds gives back exactly the vCard lines,
      provided no field holds a line feed itself. */
  lemma VCardLinesRoundTrip(c: VCardConfig)
    requires SingleLineFields(c)
    ensures Split(FormatVCard(c), '\n') == VCardLines(c)
  {
    var p0 := Property("ORG", c.organization);
    var p1 := p0 + Property("TITLE", c.title);
    var p2 := p1 + Property("TEL", c.phone);
    var p3 := p2 + Property("EMAIL", c.email);
    var p4 := p3 + Property("URL", c.url);
    assert p4 == OptionalLines(c);
    var lines := VCardLines(c);
    HeadClean(c);
    AdrClean(c);
    LineClean("END", "VCARD");
    PropertyClean("ORG", c.organization);
    PropertyClean("TITLE", c.title);
    PropertyClean("TEL", c.phone);
    PropertyClean("EMAIL", c.email);
    PropertyClean("URL", c.url);
    CleanAppend(p0, Property("TITLE", c.title));
    CleanAppend(p1, Property("TEL", c.phone));
    CleanAppend(p2, Property("EMAIL", c.email));
    CleanAppend(p3, Property("URL", c.url));
    CleanAppend(HeadLines(c), p4);
    CleanAppend(HeadLines(c) + p4, AdrLines(c));
    CleanAppend(HeadLines(c) + p4 + AdrLines(c), [Line("END", "VCARD")]);
    SplitJoin(lines, '\n');
  }

  /** The fixed frame of every vCard. */
  lemma VCardFrame(c: VCardConfig)
    ensures var lines := VCardLines(c);
      && |lines| >= 5
      && lines[0] == "BEGIN:VCARD" && lines[1] == "VERSION:3.0"
      && lines[2] == "N:" + NValue(c)
      && lines[3] == "FN:" + FullName(c.firstName, c.lastName)
      && lines[|lines| - 1] == "END:VCARD"
  {
    var h, rest := HeadLines(c), OptionalLines(c) + AdrLines(c);
    var lines := VCardLines(c);
    assert lines == h + (rest + [Line("END", "VCARD")]);
    assert forall i :: 0 <= i < 4 ==> lines[i] == h[i];
    assert lines[|lines| - 1] == Line("END", "VCARD");
    assert Line("BEGIN", "VCARD") == "BEGIN:VCARD" && Line("VERSION", "3.0") == "VERSION:3.0";
    assert Line("END", "VCARD") == "END:VCARD";
  }

  /** The property name of a line: the text before its first ':'. */
  function PropertyName(line: string): string {
    if line == [] || line[0] == ':' then [] else [line[0]] + PropertyName(line[1..])
  }

  function PropertyNames(lines: seq<string>): seq<string> {
    if lines == [] then [] else [PropertyName(lines[0])] + PropertyNames(lines[1..])
  }

  lemma {:induction false} PropertyNamesAppend(a: seq<string>, b: seq<string>)
    ensures PropertyNames(a + b) == PropertyNames(a) + PropertyNames(b)
  {
    if a == [] {
      assert a + b == b;
    }
    if a != [] {
      assert (a + b)[0] == a[0];
      assert (a + b)[1..] == a[1..] + b;
      PropertyNamesAppend(a[1..], b);
    }
  }

  lemma {:induction false} NameOf(name: string, value: string)
    requires ':' !in name
    ensures PropertyName(Line(name, value)) == name
  {
    var line := Line(name, value);
    if name == [] {
      assert line[0] == ':';
    } else {
      assert line[0] == name[0];
      assert line[1..] == Line(name[1..], value);
      NameOf(name[1..], value);
      assert name == [name[0]] + name[1..];
    }
  }

  lemma NamesOfOne(line: string)
    ensures PropertyNames([line]) == [PropertyName(line)]
  {
    assert [line][1..] == [];
    assert [PropertyName(line)] + [] == [PropertyName(line)];
  }

  function Opt(present: bool, name: string): seq<string> {
    if present then [name] else []
  }

  lemma NamesOfProperty(name: string, value: string)
    requires ':' !in name
    ensures PropertyNames(Property(name, value)) == Opt(value != "", name)
  {
    if value != "" {
      NameOf(name, value);
      NamesOfOne(Line(name, value));
    }
  }

  /** PropertyNames reads the name of each line in turn. */
  lemma {:induction false} PropertyNamesAt(lines: seq<string>)
    ensures |PropertyNames(lines)| == |lines|
    ensures forall i :: 0 <= i < |lines| ==> PropertyNames(lines)[i] == PropertyName(lines[i])
  {
    if lines != [] {
      PropertyNamesAt(lines[1..]);
    }
  }

  lemma NamesOfHead(c: VCardConfig)
    ensures PropertyNames(HeadLines(c)) == ["BEGIN", "VERSION", "N", "FN"]
  {
    var h := HeadLines(c);
    PropertyNamesAt(h);
    NameOf("BEGIN", "VCARD");
    NameOf("VERSION", "3.0");
    NameOf("N", NValue(c));
    NameOf("FN", FullName(c.firstName, c.lastName));
  }

  lemma NamesOfOptional(c: VCardConfig)
    ensures PropertyNames(OptionalLines(c)) ==
      Opt(c.organization != "", "ORG")
      + Opt(c.title != "", "TITLE")
      + Opt(c.phone != "", "TEL")
      + Opt(c.email != "", "EMAIL")
      + Opt(c.url != "", "URL")
  {
    var o, t, p, e, u := Property("ORG", c.organization), Property("TITLE", c.title), Property("TEL", c.phone), Property("EMAIL", c.email), Property("URL", c.url);
    PropertyNamesAppend(o, t);
    PropertyNamesAppend(o + t, p);
    PropertyNamesAppend(o + t + p, e);
    PropertyNamesAppend(o + t + p + e, u);
    NamesOfProperty("ORG", c.organization);
    NamesOfProperty("TITLE", c.title);
    NamesOfProperty("TEL", c.phone);
    NamesOfProperty("EMAIL", c.email);
    NamesOfProperty("URL", c.url);
  }

  lemma NamesOfAdr(c: VCardConfig)
    ensures PropertyNames(AdrLines(c)) == Opt(c.address.Some?, "ADR")
  {
    if c.address.Some? {
      NameOf("ADR", AdrValue(c.address.value));
      NamesOfOne(Line("ADR", AdrValue(c.address.value)));
    }
  }

  /** The properties appear in the fixed order BEGIN, VERSION, N, FN, ORG,
      TITLE, TEL, EMAIL, URL, ADR, END, each optional one exactly when its
      field is non-empty (the address: when it is given). */
  lemma VCardPropertyOrder(c: VCardConfig)
    ensures PropertyNames(VCardLines(c)) ==
      ["BEGIN", "VERSION", "N", "FN"]
      + (Opt(c.organization != "", "ORG")
         + Opt(c.title != "", "TITLE")
         + Opt(c.phone != "", "TEL")
         + Opt(c.email != "", "EMAIL")
         + Opt(c.url != "", "URL"))
      + Opt(c.address.Some?, "ADR")
      + ["END"]
  {
    var h, m, a, z := HeadLines(c), OptionalLines(c), AdrLines(c), [Line("END", "VCARD")];
    PropertyNamesAppend(h, m);
    PropertyNamesAppend(h + m, a);
    PropertyNamesAppend(h + m + a, z);
    NamesOfHead(c);
    NamesOfOptional(c);
    NamesOfAdr(c);
    NameOf("END", "VCARD");
    NamesOfOne(Line("END", "VCARD"));
  }

  lemma JoinCons(x: string, xs: seq<string>, sep: string)
    requires |xs| >= 1
    ensures Join([x] + xs, sep) == x + sep + Join(xs, sep)
    ensures Join([x] + xs, sep) == x + (sep + Join(xs, sep))
  {
    assert ([x] + xs)[1..] == xs;
  }

  /** The N value has the five ';'-separated components of section 3.1.2 of
      RFC 2426 (family, given, additional, prefixes, suffixes) when neither
      name contains ';'. */
  lemma NComponents(c: VCardConfig)
    requires ';' !in c.lastName && ';' !in c.firstName
    ensures Split(NValue(c), ';') == [c.lastName, c.firstName, "", "", ""]
  {
    var parts := [c.lastName, c.firstName, "", "", ""];
    JoinCons("", [""], ";");
    JoinCons("", ["", ""], ";");
    JoinCons(c.firstName, ["", "", ""], ";");
    JoinCons(c.lastName, [c.firstName, "", "", ""], ";");
    assert [c.lastName] + [c.firstName, "", "", ""] == parts;
    assert Join(parts, ";") == NValue(c);
    SplitJoin(parts, ';');
  }

  /** The ADR value has the seven components of section 3.2.1 of RFC 2426,
      post-office box and extended address left empty, when no address field
      contains ';'. */
  lemma AdrComponents(a: Address)
    requires ';' !in a.street && ';' !in a.city && ';' !in a.state && ';' !in a.zip && ';' !in a.country
    ensures Split(AdrValue(a), ';') == ["", "", a.street, a.city, a.state, a.zip, a.country]
  {
    var parts := ["", "", a.street, a.city, a.state, a.zip, a.country];
    JoinCons(a.zip, [a.country], ";");
    JoinCons(a.state, [a.zip, a.country], ";");
    JoinCons(a.city, [a.state, a.zip, a.country], ";");
    JoinCons(a.street, [a.city, a.state, a.zip, a.country], ";");
    JoinCons("", [a.street, a.city, a.state, a.zip, a.country], ";");
    JoinCons("", ["", a.street, a.city, a.state, a.zip, a.country], ";");
    assert [""] + ["", a.street, a.city, a.state, a.zip, a.country] == parts;
    assert Join([a.country], ";") == a.country;
    var inner := ";" + (a.street + (";" + (a.city + (";" + (a.state + (";" + (a.zip + (";" + a.country))))))));
    assert Join(["", a.street, a.city, a.state, a.zip, a.country], ";") == "" + inner;
    assert "" + inner == inner;
    assert Join(parts, ";") == AdrValue(a);
    SplitJoin(parts, ';');
  }

  // ---------------------------------------------------------------- mailto, sms, tel, geo

  datatype EmailConfig = EmailConfig(to: string, subject: string, body: string)

  function EmailParams(c: EmailConfig, enc: string -> string): seq<string> {
    (if c.subject != "" then ["subject=" + enc(c.subject)] else [])
    + (if c.body != "" then ["body=" + enc(c.body)] else [])
  }

  /** `formatEmail`: a mailto URI (section 2 of RFC 6068). */
  function FormatEmail(c: EmailConfig, enc: string -> string): (r: string)
    ensures c.subject == "" && c.body == "" ==> r == "mailto:" + c.to
  {
    var params := EmailParams(c, enc);
    "mailto:" + c.to + (if |params| > 0 then "?" + Join(params, "&") else "")
  }

  /** What a mailto reader recovers: the address, and the encoded subject and
      body when present. */
  datatype MailtoFields = MailtoFields(to: string, subject: Option<string>, body: Option<string>)

  /** The value of a leading "subject=" parameter. */
  function SubjectOf(params: seq<string>): Option<string>
    requires |params| >= 1
  {
    if StartsWith(params[0], "subject=") then Some(params[0][8..]) else None
  }

  /** The value of a trailing "body=" parameter. */
  function BodyOf(params: seq<string>): Option<string>
    requires |params| >= 1
  {
    var last := params[|params| - 1];
    if StartsWith(last, "body=") then Some(last[5..]) else None
  }

  /** A reader for mailto URIs: the address runs up to the first '?', and the
      query is split at '&'. */
  function ParseMailto(s: string): Option<MailtoFields> {
    if !StartsWith(s, "mailto:") then None
    else
      var rest := s[7..];
      if '?' !in rest then Some(MailtoFields(rest, None, None))
      else
        var i := IndexOf(rest, '?');
        var params := Split(rest[i + 1..], '&');
        Some(MailtoFields(rest[..i], SubjectOf(params), BodyOf(params)))
  }

  lemma ParseMailtoQuery(to: string, q: string)
    requires '?' !in to
    ensures ParseMailto("mailto:" + to + "?" + q) == Some(MailtoFields(to, SubjectOf(Split(q, '&')), BodyOf(Split(q, '&'))))
  {
    var s := "mailto:" + to + "?" + q;
    var rest := to + "?" + q;
    assert s[7..] == rest;
    IndexOfAfter(to, '?', q);
    assert rest[|to|] == '?';
    assert rest[..|to|] == to;
    assert rest[|to| + 1..] == q;
  }

  lemma ParseMailtoPlain(to: string)
    requires '?' !in to
    ensures ParseMailto("mailto:" + to) == Some(MailtoFields(to, None, None))
  {
    assert ("mailto:" + to)[7..] == to;
  }

  /** The encoder's output never contains '&', the parameter delimiter —
      true of `encodeURIComponent`, which percent-encodes it. */
  ghost predicate EncodesDelimiters(enc: string -> string) {
    forall s :: '&' !in enc(s)
  }

  /** Reading a formatted mailto URI back recovers the address, and the
      subject parameter before the body parameter, each present exactly when
      its field is non-empty. */
  lemma EmailRoundTrip(c: EmailConfig, enc: string -> string)
    requires '?' !in c.to
    requires EncodesDelimiters(enc)
    ensures ParseMailto(FormatEmail(c, enc)) == Some(MailtoFields(c.to,
      if c.subject != "" then Some(enc(c.subject)) else None,
      if c.body != "" then Some(enc(c.body)) else None))
  {
    var params := EmailParams(c, enc);
    if c.subject == "" && c.body == "" {
      ParseMailtoPlain(c.to);
    } else {
      assert FormatEmail(c, enc) == "mailto:" + c.to + "?" + Join(params, "&");
      var es, eb := enc(c.subject), enc(c.body);
      assert '&' !in es && '&' !in eb;
      ParamsRoundTrip(c.subject != "", c.body != "", es, eb);
      QueryRoundTrip(c.to, params);
    }
  }

  lemma QueryRoundTrip(to: string, params: seq<string>)
    requires '?' !in to
    requires |params| >= 1
    requires forall i :: 0 <= i < |params| ==> '&' !in params[i]
    ensures ParseMailto("mailto:" + to + "?" + Join(params, "&")) == Some(MailtoFields(to, SubjectOf(params), BodyOf(params)))
  {
    ParseMailtoQuery(to, Join(params, "&"));
    SplitJoin(params, '&');
  }

  /** The parameter list for each combination of present fields: its values
      contain no '&', and the subject and body readers find their values. */
  lemma ParamsRoundTrip(hasSubject: bool, hasBody: bool, es: string, eb: string)
    requires hasSubject || hasBody
    requires '&' !in es && '&' !in eb
    ensures var params := (if hasSubject then ["subject=" + es] else []) + (if hasBody then ["body=" + eb] else []);
      && |params| >= 1
      && (forall i :: 0 <= i < |params| ==> '&' !in params[i])
      && SubjectOf(params) == (if hasSubject then Some(es) else None)
      && BodyOf(params) == (if hasBody then Some(eb) else None)
  {
    var sp, bp := "subject=" + es, "body=" + eb;
    NotInConcat('&', "subject=", es);
    NotInConcat('&', "body=", eb);
    DifferentFirst(sp, "body=");
    DifferentFirst(bp, "subject=");
    assert sp[8..] == es;
    assert bp[5..] == eb;
    var params := (if hasSubject then [sp] else []) + (if hasBody then [bp] else []);
    if hasSubject && hasBody {
      assert params == [sp, bp];
    } else if hasSubject {
      assert params == [sp];
    } else {
      assert params == [bp];
    }
  }

  datatype SmsConfig = SmsConfig(phone: string, message: string)

  /** `formatSms`: an sms URI with an optional body (section 2.2 of RFC 5724). */
  function FormatSms(c: SmsConfig, enc: string -> string): string {
    "sms:" + c.phone + (if c.message != "" then "?body=" + enc(c.message) else "")
  }

  /** Reads an sms URI back into the number and the encoded body, if any. */
  function ParseSms(s: string): Option<(string, Option<string>)> {
    if !StartsWith(s, "sms:") then None
    else
      var rest := s[4..];
      if '?' !in rest then Some((rest, None))
      else
        var i := IndexOf(rest, '?');
        if StartsWith(rest[i + 1..], "body=") then Some((rest[..i], Some(rest[i + 6..]))) else None
  }

  /** The body parameter is present exactly when the message is non-empty. */
  lemma SmsRoundTrip(c: SmsConfig, enc: string -> string)
    requires '?' !in c.phone
    ensures ParseSms(FormatSms(c, enc)) == Some((c.phone, if c.message != "" then Some(enc(c.message)) else None))
  {
    var s := FormatSms(c, enc);
    if c.message != "" {
      var rest := c.phone + "?" + ("body=" + enc(c.message));
      assert s[4..] == rest;
      IndexOfAfter(c.phone, '?', "body=" + enc(c.message));
      assert rest[..|c.phone|] == c.phone;
      assert rest[|c.phone| + 1..] == "body=" + enc(c.message);
      assert rest[|c.phone| + 6..] == enc(c.message);
    } else {
      assert s[4..] == c.phone;
    }
  }

  /** `phone.replace(/\s/g, '')`: the number with its white space removed. */
  function RemoveSpaces(s: string): (r: string)
    ensures |r| <= |s|
    ensures forall i :: 0 <= i < |r| ==> !IsSpace(r[i])
  {
    if s == [] then [] else (if IsSpace(s[0]) then [] else [s[0]]) + RemoveSpaces(s[1..])
  }

  /** `formatPhone`: a tel URI (section 3 of RFC 3966). */
  function FormatPhone(phone: string): (r: string)
    ensures StartsWith(r, "tel:")
    ensures forall i :: 4 <= i < |r| ==> !IsSpace(r[i])
  {
    "tel:" + RemoveSpaces(phone)
  }

  /** Removing white space keeps a number that has none unchanged... */
  lemma {:induction false} RemoveSpacesKeepsClean(s: string)
    requires forall i :: 0 <= i < |s| ==> !IsSpace(s[i])
    ensures RemoveSpaces(s) == s
  {
    if s != [] {
      RemoveSpacesKeepsClean(s[1..]);
    }
  }

  /** ...and keeps every other character in its order: it commutes with
      concatenation, so a number is the same whether spaced or not. */
  lemma {:induction false} RemoveSpacesAppend(a: string, b: string)
    ensures RemoveSpaces(a + b) == RemoveSpaces(a) + RemoveSpaces(b)
  {
    if a == [] {
      assert a + b == b;
    }
    if a != [] {
      assert (a + b)[0] == a[0];
      assert (a + b)[1..] == a[1..] + b;
      RemoveSpacesAppend(a[1..], b);
    }
  }

  /** Formatting the digits of an already formatted number changes nothing. */
  lemma FormatPhoneIdempotent(phone: string)
    ensures FormatPhone(FormatPhone(phone)[4..]) == FormatPhone(phone)
  {
    RemoveSpacesKeepsClean(RemoveSpaces(phone));
  }

  /** One character at a time: white space is dropped, anything else kept.
      With RemoveSpacesAppend this fixes the result on every input. */
  lemma RemoveSpacesChar(c: char)
    ensures RemoveSpaces([c]) == if IsSpace(c) then [] else [c]
  {
    assert [c][1..] == [];
  }

  /** White space anywhere in the number leaves the link as it is. */
  lemma FormatPhoneIgnoresSpace(a: string, c: char, b: string)
    requires IsSpace(c)
    ensures FormatPhone(a + [c] + b) == FormatPhone(a + b)
  {
    RemoveSpacesAppend(a + [c], b);
    RemoveSpacesAppend(a, [c]);
    RemoveSpacesAppend(a, b);
    RemoveSpacesChar(c);
  }

  /** A number without white space is carried after "tel:" unchanged. */
  lemma FormatPhoneClean(phone: string)
    requires forall i :: 0 <= i < |phone| ==> !IsSpace(phone[i])
    ensures FormatPhone(phone) == "tel:" + phone
  {
    RemoveSpacesKeepsClean(phone);
  }

  datatype GeoConfig = GeoConfig(latitude: string, longitude: string)

  /** `formatGeo`: a geo URI (section 3.3 of RFC 5870). */
  function FormatGeo(c: GeoConfig): string {
    "geo:" + c.latitude + "," + c.longitude
  }

  /** The coordinates come back from the text after "geo:" split at its first
      comma, provided the latitude holds none. */
  lemma GeoRoundTrip(c: GeoConfig)
    requires ',' !in c.latitude
    ensures var body := FormatGeo(c)[4..];
      ',' in body && body[..IndexOf(body, ',')] == c.latitude && body[IndexOf(body, ',') + 1..] == c.longitude
  {
    var body := FormatGeo(c)[4..];
    assert body == c.latitude + [','] + c.longitude;
    IndexOfAfter(c.latitude, ',', c.longitude);
  }

  // ---------------------------------------------------------------- URLs

  /** `/^https?:\/\//i`: the text starts with an http or https scheme, in any
      letter case. */
  predicate HasHttpScheme(s: string) {
    StartsWith(Lower(s), "http://") || StartsWith(Lower(s), "https://")
  }

  /** `formatUrl`: empty stays empty; a scheme-less address gets "https://". */
  function FormatUrl(url: string): (r: string)
    ensures url == "" <==> r == ""
    ensures HasHttpScheme(url) ==> r == url
    ensures url != "" && !HasHttpScheme(url) ==> r == "https://" + url
  {
    if url == "" then "" else if !HasHttpScheme(url) then "https://" + url else url
  }

  /** Every non-empty result carries a scheme, so normalising twice changes
      nothing. */
  lemma FormatUrlIdempotent(url: string)
    ensures FormatUrl(url) != "" ==> HasHttpScheme(FormatUrl(url))
    ensures FormatUrl(FormatUrl(url)) == FormatUrl(url)
  {
    if url != "" && !HasHttpScheme(url) {
      LowerAppend("https://", url);
      assert Lower("https://" + url) == "https://" + Lower(url);
    }
  }

  // ---------------------------------------------------------------- detectQrType

  predicate AsciiLetter(c: char) {
    'a' <= c <= 'z' || 'A' <= c <= 'Z'
  }

  predicate DomainChar(c: char) {
    AsciiLetter(c) || IsDigit(c) || c == '.' || c == '-'
  }

  /** `/^[a-z0-9.-]+\.[a-z]{2,}/i`: some non-empty run of domain characters at
      the start is followed by a dot and two ASCII letters. */
  predicate BareDomain(s: string) {
    exists k :: 1 <= k && k + 3 <= |s| && DomainRun(s, k) && s[k] == '.' && AsciiLetter(s[k + 1]) && AsciiLetter(s[k + 2])
  }

  predicate DomainRun(s: string, k: nat)
    requires k <= |s|
  {
    forall j :: 0 <= j < k ==> DomainChar(s[j])
  }

  /** `detectQrType`, the classifier the front end uses. */
  function DetectQrTypeClient(content: string): QrType {
    if content == "" then PlainText
    else
      var lower := Lower(content);
      if StartsWith(lower, "wifi:") then Wifi
      else if StartsWith(lower, "begin:vcard") then VCard
      else if StartsWith(lower, "mailto:") then Email
      else if StartsWith(lower, "sms:") || StartsWith(lower, "smsto:") then Sms
      else if StartsWith(lower, "tel:") then Phone
      else if StartsWith(lower, "geo:") then Geo
      else if StartsWith(lower, "begin:vevent") then Calendar
      else if HasHttpScheme(content) then Url
      else if BareDomain(content) then Url
      else PlainText
  }

  /** The front end's classifier agrees with the back end's on every input,
      except that a bare domain the back end calls text it calls a URL. */
  lemma ClientAgreesWithServer(content: string)
    ensures DetectQrTypeClient(content) ==
      if DetectQrType(content) != PlainText then DetectQrType(content)
      else if content != "" && BareDomain(content) then Url
      else PlainText
  {
  }

  lemma ColonFree(l: string, p: string, k: nat)
    requires k < |p| && p[k] == ':' && ':' !in l
    ensures !StartsWith(l, p)
  {
  }

  /** Every classification prefix holds a ':', so the back end classifies
      content without one as text. */
  lemma NoColonIsText(s: string)
    requires ':' !in s
    ensures DetectQrType(s) == PlainText
  {
    var l := Lower(s);
    LowerAt(s);
    assert ':' !in l by {
      forall i | 0 <= i < |l| ensures l[i] != ':' {
        assert l[i] == LowerChar(s[i]);
      }
    }
    ColonFree(l, "wifi:", 4);
    ColonFree(l, "begin:vcard", 5);
    ColonFree(l, "mailto:", 6);
    ColonFree(l, "sms:", 3);
    ColonFree(l, "smsto:", 5);
    ColonFree(l, "tel:", 3);
    ColonFree(l, "geo:", 3);
    ColonFree(l, "begin:vevent", 5);
    ColonFree(l, "http://", 4);
    ColonFree(l, "https://", 5);
  }

  /** A scenario: "example.com" has no scheme, yet the front end classifies it
      as a URL while the back end classifies it as text. */
  lemma BareDomainScenario()
    ensures DetectQrTypeClient("example.com") == Url
    ensures DetectQrType("example.com") == PlainText
  {
    var s := "example.com";
    assert DomainRun(s, 7) && s[7] == '.' && AsciiLetter(s[8]) && AsciiLetter(s[9]);
    assert BareDomain(s);
    assert ':' !in s;
    NoColonIsText(s);
    ClientAgreesWithServer(s);
  }
}
