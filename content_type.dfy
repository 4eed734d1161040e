/** Content-type classification of a payload by its prefix, as the back end's
    `detect_qr_type` does it (src-tauri/src/commands/batch.rs and, in an
    identical copy, src-tauri/src/commands/validate.rs). */
module ContentType {
  import opened Text
  import opened Wrappers

  /** The nine content kinds the program knows. */
  datatype QrType = Wifi | VCard | Email | Sms | Phone | Geo | Calendar | Url | PlainText {
    /** The tag the program stores and displays for the kind. */
    function Tag(): string {
      match this
      case Wifi => "wifi"
      case VCard => "vcard"
      case Email => "email"
      case Sms => "sms"
      case Phone => "phone"
      case Geo => "geo"
      case Calendar => "calendar"
      case Url => "url"
      case PlainText => "text"
    }
  }

  /** Reads a tag back into its kind. */
  function ParseTag(tag: string): (t: Option<QrType>)
    ensures t.Some? ==> t.value.Tag() == tag
  {
    if tag == "wifi" then Some(Wifi)
    else if tag == "vcard" then Some(VCard)
    else if tag == "email" then Some(Email)
    else if tag == "sms" then Some(Sms)
    else if tag == "phone" then Some(Phone)
    else if tag == "geo" then Some(Geo)
    else if tag == "calendar" then Some(Calendar)
    else if tag == "url" then Some(Url)
    else if tag == "text" then Some(PlainText)
    else None
  }

  /** Every kind's tag reads back as that kind, so the nine tags are distinct. */
  lemma TagRoundTrip(t: QrType)
    ensures ParseTag(t.Tag()) == Some(t)
  {
  }

  /** `detect_qr_type`: the lower-cased content is tested against a fixed
      sequence of prefixes, and the first test that succeeds decides. */
  function DetectQrType(content: string): QrType {
    var lower := Lower(content);
    if StartsWith(lower, "wifi:") then Wifi
    else if StartsWith(lower, "begin:vcard") then VCard
    else if StartsWith(lower, "mailto:") then Email
    else if StartsWith(lower, "sms:") || StartsWith(lower, "smsto:") then Sms
    else if StartsWith(lower, "tel:") then Phone
    else if StartsWith(lower, "geo:") then Geo
    else if StartsWith(lower, "begin:vevent") then Calendar
    else if StartsWith(lower, "http://") || StartsWith(lower, "https://") then Url
    else PlainText
  }

  /** The classification rules as data: each kind with the prefixes that
      select it, in the order they are tried. */
  const Rules: seq<(seq<string>, QrType)> := [
    (["wifi:"], Wifi),
    (["begin:vcard"], VCard),
    (["mailto:"], Email),
    (["sms:", "smsto:"], Sms),
    (["tel:"], Phone),
    (["geo:"], Geo),
    (["begin:vevent"], Calendar),
    (["http://", "https://"], Url)
  ]

  /** Some listed prefix starts `s`. */
  predicate AnyPrefix(prefixes: seq<string>, s: string) {
    exists i :: 0 <= i < |prefixes| && StartsWith(s, prefixes[i])
  }

  /** Reference reading of a rule table: the kind of the first rule one of
      whose prefixes starts `s`, or plain text when none applies. */
  function FirstMatch(rules: seq<(seq<string>, QrType)>, s: string): QrType {
    if rules == [] then PlainText
    else if AnyPrefix(rules[0].0, s) then rules[0].1
    else FirstMatch(rules[1..], s)
  }

  /** `detect_qr_type` is the first-match reading of the rule table over the
      lower-cased content. */
  lemma DetectIsFirstMatch(content: string)
    ensures DetectQrType(content) == FirstMatch(Rules, Lower(content))
  {
    var s := Lower(content);
    var r := Rules;
    OnePrefix("wifi:", s);
    OnePrefix("begin:vcard", s);
    OnePrefix("mailto:", s);
    TwoPrefixes("sms:", "smsto:", s);
    OnePrefix("tel:", s);
    OnePrefix("geo:", s);
    OnePrefix("begin:vevent", s);
    TwoPrefixes("http://", "https://", s);
    assert r[8..] == [];
    assert FirstMatch(r[7..], s) == if StartsWith(s, "http://") || StartsWith(s, "https://") then Url else PlainText by {
      assert r[7..][1..] == r[8..];
    }
    assert FirstMatch(r[6..], s) == if StartsWith(s, "begin:vevent") then Calendar else FirstMatch(r[7..], s) by {
      assert r[6..][1..] == r[7..];
    }
    assert FirstMatch(r[5..], s) == if StartsWith(s, "geo:") then Geo else FirstMatch(r[6..], s) by {
      assert r[5..][1..] == r[6..];
    }
    assert FirstMatch(r[4..], s) == if StartsWith(s, "tel:") then Phone else FirstMatch(r[5..], s) by {
      assert r[4..][1..] == r[5..];
    }
    assert FirstMatch(r[3..], s) == if StartsWith(s, "sms:") || StartsWith(s, "smsto:") then Sms else FirstMatch(r[4..], s) by {
      assert r[3..][1..] == r[4..];
    }
    assert FirstMatch(r[2..], s) == if StartsWith(s, "mailto:") then Email else FirstMatch(r[3..], s) by {
      assert r[2..][1..] == r[3..];
    }
    assert FirstMatch(r[1..], s) == if StartsWith(s, "begin:vcard") then VCard else FirstMatch(r[2..], s) by {
      assert r[1..][1..] == r[2..];
    }
    assert FirstMatch(r, s) == if StartsWith(s, "wifi:") then Wifi else FirstMatch(r[1..], s);
  }

  lemma OnePrefix(p: string, s: string)
    ensures AnyPrefix([p], s) <==> StartsWith(s, p)
  {
    if StartsWith(s, p) { assert StartsWith(s, [p][0]); }
  }

  lemma TwoPrefixes(p: string, q: string, s: string)
    ensures AnyPrefix([p, q], s) <==> StartsWith(s, p) || StartsWith(s, q)
  {
    if StartsWith(s, p) { assert StartsWith(s, [p, q][0]); }
    if StartsWith(s, q) { assert StartsWith(s, [p, q][1]); }
  }

  /** Plain text is what is left over: it is returned exactly when none of the
      table's prefixes starts the lower-cased content. */
  lemma {:induction false} PlainTextIffNoRule(content: string)
    ensures DetectQrType(content) == PlainText <==>
              forall i :: 0 <= i < |Rules| ==> !AnyPrefix(Rules[i].0, Lower(content))
  {
    DetectIsFirstMatch(content);
    NoMatchIsPlain(Rules, Lower(content));
  }

  lemma {:induction false} NoMatchIsPlain(rules: seq<(seq<string>, QrType)>, s: string)
    requires forall i :: 0 <= i < |rules| ==> rules[i].1 != PlainText
    ensures FirstMatch(rules, s) == PlainText <==> forall i :: 0 <= i < |rules| ==> !AnyPrefix(rules[i].0, s)
  {
    if rules != [] {
      NoMatchIsPlain(rules[1..], s);
      assert forall i :: 1 <= i < |rules| ==> rules[i] == rules[1..][i - 1];
    }
  }
}
