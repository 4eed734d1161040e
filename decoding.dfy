/** The foreign decoding stack the back end calls: base64 decoding, image
    loading and QR grid detection are not modelled; a `Decoder` stands for
    their combined behaviour, and only what the program does with their
    outcomes is. */
module Decoding {
  import opened Wrappers
  import opened Text

  newtype byte = x: int | 0 <= x < 256

  type Bytes = seq<byte>

  /** What grid detection and decoding make of a loaded image: no grid, a grid
      whose decoding failed (with the decoder's debug text), or the text
      decoded from the first grid. */
  datatype GridOutcome = NoGrid | GridUndecodable(error: string) | GridDecoded(text: string)

  /** Loading image bytes: the format could not be guessed, the image could
      not be decoded, or it loaded and grid detection gave an outcome. */
  datatype ImageLoad = FormatUnknown(error: string) | DecodeFailed(error: string) | Loaded(grid: GridOutcome)

  /** The standard-alphabet base64 decoder and the image loader. */
  datatype Decoder = Decoder(base64: string -> Result<Bytes, string>, image: Bytes -> ImageLoad)

  /** The base64 payload of an image argument: when it contains a comma (a
      data URL such as "data:image/png;base64,…"), the text between the first
      and the second comma; otherwise the whole text. */
  function StripDataUrl(s: string): (r: string)
    ensures ',' !in r
      || ',' !in s
    ensures ',' !in s ==> r == s
  {
    if ',' in s then Split(s, ',')[1] else s
  }

  /** The payload after the first comma, cut at the next comma. */
  lemma StripDataUrlIsSecondField(s: string)
    requires ',' in s
    ensures var rest := s[IndexOf(s, ',') + 1..];
      StripDataUrl(s) == if ',' in rest then rest[..IndexOf(rest, ',')] else rest
  {
    var i := IndexOf(s, ',');
    var rest := s[i + 1..];
    assert Split(s, ',') == [s[..i]] + Split(rest, ',');
    if ',' in rest {
      assert Split(rest, ',')[0] == rest[..IndexOf(rest, ',')];
    }
  }

  /** A data URL "header,payload" yields exactly its payload. */
  lemma DataUrlPayload(header: string, payload: string)
    requires ',' !in header && ',' !in payload
    ensures StripDataUrl(header + "," + payload) == payload
  {
    var s := header + "," + payload;
    IndexOfAfter(header, ',', payload);
    assert s[|header|] == ',';
    assert s[|header| + 1..] == payload;
    StripDataUrlIsSecondField(s);
  }
}
