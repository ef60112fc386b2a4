/** ONVIF scopes: the device builds one string of space-separated URIs with percent-encoded names (sections 2.1 and
    2.3 of RFC 3986), and the GetScopes service cuts it up again. */
module ScopeText {
  import opened Bytes

  const SPACE: Byte := 0x20
  const PERCENT: Byte := 0x25

  predicate Unreserved(c: Byte) {
    0x61 <= c <= 0x7a || 0x41 <= c <= 0x5a || 0x30 <= c <= 0x39 || c == 0x2d || c == 0x5f || c == 0x2e || c == 0x7e
  }

  /** An upper-case hexadecimal digit. */
  function HexDigit(n: nat): (d: Byte)
    requires n < 16
    ensures Unreserved(d)
  {
    if n < 10 then 0x30 + n else 0x41 + n - 10
  }

  function EncodeByte(c: Byte): seq<Byte> {
    if Unreserved(c) then [c] else [PERCENT, HexDigit(c / 16), HexDigit(c % 16)]
  }

  function Encode(text: seq<Byte>): seq<Byte>
    decreases |text|
  {
    if text == [] then [] else EncodeByte(text[0]) + Encode(text[1..])
  }

  /** The value of a hexadecimal digit of either case, or 16. */
  function HexValue(d: Byte): (n: nat)
    ensures n <= 16
  {
    if 0x30 <= d <= 0x39 then d - 0x30
    else if 0x41 <= d <= 0x46 then d - 0x41 + 10
    else if 0x61 <= d <= 0x66 then d - 0x61 + 10
    else 16
  }

  /** Percent-decoding as RFC 3986 defines it; a malformed escape stands for itself. */
  function Decode(text: seq<Byte>): seq<Byte>
    decreases |text|
  {
    if text == [] then []
    else if text[0] == PERCENT && |text| >= 3 && HexValue(text[1]) < 16 && HexValue(text[2]) < 16
    then [HexValue(text[1]) * 16 + HexValue(text[2])] + Decode(text[3..])
    else [text[0]] + Decode(text[1..])
  }

  lemma DecodeByte(c: Byte, rest: seq<Byte>)
    ensures Decode(EncodeByte(c) + rest) == [c] + Decode(rest)
  {
    var text := EncodeByte(c) + rest;
    if Unreserved(c) {
      assert text[1..] == rest;
    } else {
      assert text[3..] == rest;
      assert HexValue(HexDigit(c / 16)) == c / 16 && HexValue(HexDigit(c % 16)) == c % 16;
    }
  }

  /** Decoding undoes encoding, for any bytes. */
  lemma {:induction false} DecodeEncode(text: seq<Byte>)
    ensures Decode(Encode(text)) == text
    decreases |text|
  {
    if text != [] {
      DecodeByte(text[0], Encode(text[1..]));
      DecodeEncode(text[1..]);
    }
  }

  /** A segment contains neither spaces nor the end-of-string byte. */
  predicate Solid(s: seq<Byte>) {
    forall i | 0 <= i < |s| :: s[i] != SPACE && s[i] != 0
  }

  lemma {:induction false} EncodeIsSolid(text: seq<Byte>)
    ensures Solid(Encode(text))
    decreases |text|
  {
    if text != [] {
      EncodeIsSolid(text[1..]);
    }
  }

  // ---------------------------------------------------------------- cutting a string at its spaces

  function SkipSpaces(s: seq<Byte>, at: nat): (k: nat)
    requires at <= |s|
    ensures at <= k <= |s| && (k < |s| ==> s[k] != SPACE)
    decreases |s| - at
  {
    if at < |s| && s[at] == SPACE then SkipSpaces(s, at + 1) else at
  }

  function SkipItem(s: seq<Byte>, at: nat): (k: nat)
    requires at <= |s|
    ensures at <= k <= |s| && (k < |s| ==> s[k] == SPACE)
    ensures at < |s| && s[at] != SPACE ==> at < k
    decreases |s| - at
  {
    if at < |s| && s[at] != SPACE then SkipItem(s, at + 1) else at
  }

  /** The maximal runs without spaces from `at` on. */
  function Items(s: seq<Byte>, at: nat): seq<seq<Byte>>
    requires at <= |s|
    decreases |s| - at
  {
    var begin := SkipSpaces(s, at);
    if begin == |s| then []
    else
      var end := SkipItem(s, begin);
      [s[begin..end]] + Items(s, end)
  }

  lemma {:induction false} SkipSolid(before: seq<Byte>, item: seq<Byte>, after: seq<Byte>, k: nat)
    requires Solid(item) && (after == [] || after[0] == SPACE) && k <= |item|
    ensures SkipItem(before + item + after, |before| + k) == |before| + |item|
    decreases |item| - k
  {
    var s := before + item + after;
    if k < |item| {
      assert s[|before| + k] == item[k];
      SkipSolid(before, item, after, k + 1);
    } else if after != [] {
      assert s[|before| + |item|] == after[0];
    }
  }

  /** An item followed by the end or by a space. */
  lemma ItemAt(before: seq<Byte>, item: seq<Byte>, after: seq<Byte>)
    requires Solid(item) && item != [] && (after == [] || after[0] == SPACE)
    ensures var s := before + item + after;
            Items(s, |before|) == [item] + Items(s, |before| + |item|)
  {
    var s := before + item + after;
    assert s[|before|] == item[0];
    assert SkipSpaces(s, |before|) == |before|;
    SkipSolid(before, item, after, 0);
    assert SkipItem(s, |before|) == |before| + |item|;
    assert s[|before|..|before| + |item|] == item;
  }

  /** Items joined by single spaces. */
  function Join(items: seq<seq<Byte>>): seq<Byte>
    decreases |items|
  {
    if items == [] then [] else if |items| == 1 then items[0] else items[0] + [SPACE] + Join(items[1..])
  }

  /** One item and the space behind it. */
  lemma CutOne(before: seq<Byte>, item: seq<Byte>, rest: seq<Byte>)
    requires Solid(item) && item != []
    ensures var next := before + item + [SPACE];
            Items(next + rest, |before|) == [item] + Items(next + rest, |next|)
  {
    var next := before + item + [SPACE];
    assert next + rest == before + item + ([SPACE] + rest);
    ItemAt(before, item, [SPACE] + rest);
    SpaceBetween(next + rest, |before| + |item|);
  }

  lemma SpaceBetween(s: seq<Byte>, at: nat)
    requires at < |s| && s[at] == SPACE
    ensures Items(s, at) == Items(s, at + 1)
  {
  }

  /** Cutting a joined string gives the items back. */
  lemma {:induction false} CutJoin(before: seq<Byte>, items: seq<seq<Byte>>)
    requires forall i | 0 <= i < |items| :: Solid(items[i]) && items[i] != []
    ensures Items(before + Join(items), |before|) == items
    decreases |items|
  {
    if items == [] {
      assert before + [] == before;
    } else if |items| == 1 {
      assert before + Join(items) == before + items[0] + [];
      ItemAt(before, items[0], []);
    } else {
      var next := before + items[0] + [SPACE];
      assert before + Join(items) == next + Join(items[1..]);
      CutOne(before, items[0], Join(items[1..]));
      CutJoin(next, items[1..]);
    }
  }

  // ---------------------------------------------------------------- the device's scope string

  /** The bytes of a literal of visible ASCII characters; any other character would read as a question mark. */
  function Ascii(text: string): (bytes: seq<Byte>)
    ensures |bytes| == |text| && Solid(bytes)
  {
    seq(|text|, i requires 0 <= i < |text| => var c := text[i] as int; if 0x20 < c < 0x80 then c else 0x3f)
  }

  const AUTHORITY := "onvif://www.onvif.org/"
  const TYPE_SCOPE := AUTHORITY + "type/" + "Network_Video_Transmitter"
  const NAME_PREFIX := AUTHORITY + "name/"
  const HARDWARE_PREFIX := AUTHORITY + "hardware/"

  /** The three URIs in one string. */
  function Assemble(kind: seq<Byte>, name: seq<Byte>, hardware: seq<Byte>): seq<Byte> {
    kind + [SPACE] + (name + [SPACE] + hardware)
  }

  function Scopes(model: seq<Byte>, hardwareId: seq<Byte>): seq<Byte> {
    Assemble(Ascii(TYPE_SCOPE), Ascii(NAME_PREFIX) + Encode(model), Ascii(HARDWARE_PREFIX) + Encode(hardwareId))
  }

  lemma JoinThree(kind: seq<Byte>, name: seq<Byte>, hardware: seq<Byte>)
    ensures Join([kind, name, hardware]) == Assemble(kind, name, hardware)
  {
    assert [kind, name, hardware][1..] == [name, hardware];
    assert [name, hardware][1..] == [hardware];
    assert Join([name, hardware]) == name + [SPACE] + hardware;
  }

  /** No byte of it is the end-of-string byte. */
  predicate CString(s: seq<Byte>) {
    forall i | 0 <= i < |s| :: s[i] != 0
  }

  lemma NoTerminatorInside(kind: seq<Byte>, name: seq<Byte>, hardware: seq<Byte>)
    requires Solid(kind) && Solid(name) && Solid(hardware)
    ensures CString(Assemble(kind, name, hardware))
  {
    CStringsJoin(name + [SPACE], hardware);
    CStringsJoin(kind + [SPACE], name + [SPACE] + hardware);
  }

  lemma CStringsJoin(s: seq<Byte>, t: seq<Byte>)
    requires CString(s) && CString(t)
    ensures CString(s + t)
  {
    forall i | 0 <= i < |s + t| ensures (s + t)[i] != 0 {
      assert (s + t)[i] == if i < |s| then s[i] else t[i - |s|];
    }
  }

  lemma ThreeItems(kind: seq<Byte>, name: seq<Byte>, hardware: seq<Byte>)
    requires Solid(kind) && Solid(name) && Solid(hardware) && kind != [] && name != [] && hardware != []
    ensures Items(Assemble(kind, name, hardware), 0) == [kind, name, hardware]
    ensures CString(Assemble(kind, name, hardware))
  {
    NoTerminatorInside(kind, name, hardware);
    JoinThree(kind, name, hardware);
    CutJoin([], [kind, name, hardware]);
    assert [] + Assemble(kind, name, hardware) == Assemble(kind, name, hardware);
  }

  /** An encoded name behind a prefix is one solid item from which the name can be recovered. */
  lemma PrefixedName(prefix: seq<Byte>, text: seq<Byte>)
    requires Solid(prefix)
    ensures Solid(prefix + Encode(text)) && prefix <= prefix + Encode(text)
    ensures Decode((prefix + Encode(text))[|prefix|..]) == text
  {
    EncodeIsSolid(text);
    assert (prefix + Encode(text))[|prefix|..] == Encode(text);
    DecodeEncode(text);
  }

  /** Main result: for any model and hardware id, spaces, percent signs and non-ASCII bytes included, the assembled
      string is a proper C string, it is cut into exactly three scopes, and what follows the prefix of the last two
      percent-decodes to the original names. NamesAcceptedIff says which names reach the service. */
  lemma ScopesRoundTrip(model: seq<Byte>, hardwareId: seq<Byte>)
    ensures var scopes, name, hardware := Scopes(model, hardwareId), Ascii(NAME_PREFIX), Ascii(HARDWARE_PREFIX);
            var items := Items(scopes, 0);
            && CString(scopes)
            && |items| == 3 && items[0] == Ascii(TYPE_SCOPE)
            && name <= items[1] && Decode(items[1][|name|..]) == model
            && hardware <= items[2] && Decode(items[2][|hardware|..]) == hardwareId
  {
    PrefixedName(Ascii(NAME_PREFIX), model);
    PrefixedName(Ascii(HARDWARE_PREFIX), hardwareId);
    ThreeItems(Ascii(TYPE_SCOPE), Ascii(NAME_PREFIX) + Encode(model), Ascii(HARDWARE_PREFIX) + Encode(hardwareId));
  }

  /** The bytes are the characters of an ASCII text. */
  predicate Reads(bytes: seq<Byte>, text: string) {
    |bytes| == |text| && forall i | 0 <= i < |text| :: bytes[i] == text[i] as int
  }

  /** The item is that text, followed by the encoded name. */
  predicate Named(item: seq<Byte>, text: string, name: seq<Byte>) {
    |text| <= |item| && Reads(item[..|text|], text) && Decode(item[|text|..]) == name
  }

  /** Visible ASCII characters. */
  predicate Visible(text: string) {
    forall i | 0 <= i < |text| :: 0x20 < text[i] as int < 0x80
  }

  lemma VisibleParts()
    ensures Visible("onvif://www.onvif.org/") && Visible("name/") && Visible("hardware/")
    ensures Visible("type/") && Visible("Network_Video_Transmitter")
  {
  }

  lemma NamedBy(item: seq<Byte>, text: string, name: seq<Byte>)
    requires Ascii(text) <= item && Decode(item[|text|..]) == name && Visible(text)
    ensures Named(item, text, name)
  {
    AsciiReads(text);
    assert item[..|text|] == Ascii(text);
  }

  lemma AsciiReads(text: string)
    requires Visible(text)
    ensures Reads(Ascii(text), text)
  {
  }

  /** Under which URI each name appears, spelled out: the second scope is the model behind ".../name/", the third the
      hardware id behind ".../hardware/". */
  lemma ScopesAreNamed(model: seq<Byte>, hardwareId: seq<Byte>)
    ensures var items := Items(Scopes(model, hardwareId), 0);
            && |items| == 3
            && Reads(items[0], "onvif://www.onvif.org/" + "type/" + "Network_Video_Transmitter")
            && Named(items[1], "onvif://www.onvif.org/" + "name/", model)
            && Named(items[2], "onvif://www.onvif.org/" + "hardware/", hardwareId)
  {
    ScopesRoundTrip(model, hardwareId);
    VisibleParts();
    var items := Items(Scopes(model, hardwareId), 0);
    AsciiReads(TYPE_SCOPE);
    NamedBy(items[1], NAME_PREFIX, model);
    NamedBy(items[2], HARDWARE_PREFIX, hardwareId);
  }

  /** What stands for one byte: letters, digits and the four marks of RFC 3986 stand for themselves, any other byte is a
      percent sign and two digits, of which the letters are capitals, that give its value. */
  lemma EncodedByte(c: Byte)
    ensures var e, plain := EncodeByte(c), "-._~";
            if ('A' as int <= c <= 'Z' as int) || ('a' as int <= c <= 'z' as int) || ('0' as int <= c <= '9' as int)
               || (exists i :: 0 <= i < 4 && c == plain[i] as int)
            then e == [c]
            else |e| == 3 && e[0] == '%' as int && CapitalDigit(e[1]) && CapitalDigit(e[2])
                 && HexValue(e[1]) * 16 + HexValue(e[2]) == c
  {
    var plain := "-._~";
    assert plain[0] == '-' && plain[1] == '.' && plain[2] == '_' && plain[3] == '~';
  }

  predicate CapitalDigit(d: Byte) {
    ('0' as int <= d <= '9' as int) || ('A' as int <= d <= 'F' as int)
  }

  // ---------------------------------------------------------------- which names the device accepts

  /** Sizes of the fixed fields, terminator included. */
  const TEXT_CAPACITY := 96
  const SCOPES_CAPACITY := 384

  /** copyText into a field of the given size. */
  predicate Fits(text: seq<Byte>, capacity: nat) {
    text != [] && |text| < capacity
  }

  /** What buildSoapConfig demands of the two names. */
  predicate NamesAccepted(model: seq<Byte>, hardwareId: seq<Byte>) {
    Fits(model, TEXT_CAPACITY) && Fits(hardwareId, TEXT_CAPACITY) && Fits(Scopes(model, hardwareId), SCOPES_CAPACITY)
  }

  /** Characters that need an escape. */
  function Escapes(text: seq<Byte>): (n: nat)
    ensures n <= |text|
    decreases |text|
  {
    if text == [] then 0 else (if Unreserved(text[0]) then 0 else 1) + Escapes(text[1..])
  }

  lemma {:induction false} EncodedLength(text: seq<Byte>)
    ensures |Encode(text)| == |text| + 2 * Escapes(text)
    decreases |text|
  {
    if text != [] {
      EncodedLength(text[1..]);
    }
  }

  /** The device takes its configuration if and only if neither name is empty or too long and both together, with two
      more characters for every escape, leave room for the fixed parts of the scope string. */
  lemma NamesAcceptedIff(model: seq<Byte>, hardwareId: seq<Byte>)
    ensures NamesAccepted(model, hardwareId)
       <==> && 0 < |model| < 96 && 0 < |hardwareId| < 96
            && |model| + 2 * Escapes(model) + |hardwareId| + 2 * Escapes(hardwareId) <= 271
  {
    EncodedLength(model);
    EncodedLength(hardwareId);
    assert |TYPE_SCOPE| + 1 + |NAME_PREFIX| + 1 + |HARDWARE_PREFIX| == 112;
  }

  // ---------------------------------------------------------------- the loops

  lemma EncodeStep(encoded: seq<Byte>, text: seq<Byte>, i: nat)
    requires i < |text|
    ensures (encoded + EncodeByte(text[i])) + Encode(text[i + 1..]) == encoded + Encode(text[i..])
  {
    assert text[i..][1..] == text[i + 1..];
  }

  method EncodeScopeSegment(text: seq<Byte>) returns (encoded: seq<Byte>)
    ensures encoded == Encode(text)
  {
    encoded := [];
    var i := 0;
    while i < |text|
      invariant 0 <= i <= |text|
      invariant encoded + Encode(text[i..]) == Encode(text)
    {
      var character := text[i];
      EncodeStep(encoded, text, i);
      ghost var before := encoded;
      if Unreserved(character) {
        encoded := encoded + [character];
      } else {
        encoded := encoded + [PERCENT] + [HexDigit(character / 16), HexDigit(character % 16)];
      }
      assert encoded == before + EncodeByte(character);
      i := i + 1;
    }
  }

  /** The counting pass and the filling pass of __tds__GetScopes, over the characters before the terminator. The array
      of the counted size is filled exactly: the passes agree on every string. */
  method GetScopes(s: seq<Byte>) returns (scopes: array<seq<Byte>>)
    ensures scopes[..] == Items(s, 0)
  {
    var count := CountScopes(s);
    scopes := new seq<Byte>[count](_ => []);
    var index, cursor := 0, 0;
    while cursor < |s|
      invariant 0 <= cursor <= |s| && 0 <= index <= count == scopes.Length == |Items(s, 0)|
      invariant scopes[..index] + Items(s, cursor) == Items(s, 0)
      decreases |s| - cursor
    {
      ghost var from := cursor;
      cursor := PassSpaces(s, cursor);
      if cursor == |s| {
        break;
      }
      var begin := cursor;
      cursor := PassItem(s, cursor);
      ItemPassed(s, from, begin, cursor, scopes[..index]);
      scopes[index] := s[begin..cursor];
      assert scopes[..index + 1] == scopes[..index] + [s[begin..cursor]];
      index := index + 1;
    }
    assert Items(s, |s|) == [];
    assert scopes[..index] == Items(s, 0);
  }

  /** One item of the rest has been passed; there is room for it. */
  lemma ItemPassed(s: seq<Byte>, from: nat, begin: nat, end: nat, before: seq<seq<Byte>>)
    requires from <= |s| && begin == SkipSpaces(s, from) < |s| && end == SkipItem(s, begin)
    ensures |before| < |before + Items(s, from)|
    ensures (before + [s[begin..end]]) + Items(s, end) == before + Items(s, from)
  {
  }

  method CountScopes(s: seq<Byte>) returns (count: nat)
    ensures count == |Items(s, 0)|
  {
    count := 0;
    var cursor := 0;
    while cursor < |s|
      invariant 0 <= cursor <= |s|
      invariant count + |Items(s, cursor)| == |Items(s, 0)|
      decreases |s| - cursor
    {
      cursor := PassSpaces(s, cursor);
      if cursor == |s| {
        break;
      }
      count := count + 1;
      cursor := PassItem(s, cursor);
    }
  }

  method PassSpaces(s: seq<Byte>, at: nat) returns (cursor: nat)
    requires at <= |s|
    ensures cursor == SkipSpaces(s, at) && (cursor == |s| || s[cursor] != SPACE)
  {
    cursor := at;
    while cursor < |s| && s[cursor] == SPACE
      invariant at <= cursor <= |s|
      invariant SkipSpaces(s, cursor) == SkipSpaces(s, at)
    {
      cursor := cursor + 1;
    }
  }

  method PassItem(s: seq<Byte>, at: nat) returns (cursor: nat)
    requires at <= |s|
    ensures cursor == SkipItem(s, at)
  {
    cursor := at;
    while cursor < |s| && s[cursor] != SPACE
      invariant at <= cursor <= |s|
      invariant SkipItem(s, cursor) == SkipItem(s, at)
    {
      cursor := cursor + 1;
    }
  }
}
