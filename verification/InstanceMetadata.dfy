/** The guest-info options of a VM, whose values are normalised to exactly one layer of base64. */
module InstanceMetadata {
  import opened Prelude
  import opened Base64
  import opened Base64Standard

  /** Decoding `s` again and again arrives at text of line breaks only. */
  ghost predicate ReachesBlank(s: Bytes)
    decreases |s|
  {
    Strip(s) == [] || (Decode(s).Some? && ReachesBlank(Decode(s).value))
  }

  /** What is left of `s` when it can no longer be decoded. */
  ghost function Plain(s: Bytes): (p: Bytes)
    requires !ReachesBlank(s)
    ensures p != [] && Decode(p).None?
    decreases |s|
  {
    match Decode(s)
    case None => s
    case Some(d) => Plain(d)
  }

  /** The loop terminates on `data`. */
  ghost predicate Encodable(data: Bytes) {
    data == [] || !ReachesBlank(data)
  }

  /** One layer of base64 around the plain text. */
  ghost function Encoded(data: Bytes): Bytes
    requires Encodable(data)
  {
    if data == [] then [] else Encode(Plain(data))
  }

  datatype OptionValue = OptionValue(key: string, value: Bytes)

  datatype Format = Ignition | CloudConfig | Other

  const IGNITION_DATA := "guestinfo.ignition.config.data"
  const IGNITION_ENCODING := "guestinfo.ignition.config.data.encoding"
  const USER_DATA := "guestinfo.userdata"
  const USER_DATA_ENCODING := "guestinfo.userdata.encoding"
  const METADATA := "guestinfo.metadata"
  const METADATA_ENCODING := "guestinfo.metadata.encoding"

  /** The bytes of an ASCII text. */
  function Ascii(s: string): Bytes {
    seq(|s|, i requires 0 <= i < |s| => ByteOf(s[i]))
  }

  function ByteOf(c: char): byte {
    c as int % 256
  }

  const BASE64: Bytes := Ascii("base64")

  /** The metadata that names the host. */
  function HostMetadata(nodeName: Bytes): Bytes {
    Ascii("local-hostname: \"") + nodeName + Ascii("\"")
  }

  /** The quoted name is read back, whatever bytes it has. */
  lemma HostMetadataNamesHost(nodeName: Bytes)
    ensures var m := HostMetadata(nodeName);
            && |m| == |nodeName| + 18 && Reads(m[..17], "local-hostname: \"")
            && m[17..|m| - 1] == nodeName && m[|m| - 1] == '"' as int
    ensures Reads(BASE64, "base64")
  {
    var prefix := "local-hostname: \"";
    assert HostMetadata(nodeName)[..17] == Ascii(prefix);
    AsciiReads(prefix);
    AsciiReads("base64");
  }

  lemma AsciiReads(s: string)
    requires forall i :: 0 <= i < |s| ==> s[i] < 128 as char
    ensures Reads(Ascii(s), s)
  {
  }

  class Config {
    var options: seq<OptionValue>

    constructor ()
      ensures options == []
    {
      options := [];
    }

    /** Decodes as often as possible, then encodes once. */
    method EncodeData(input: Bytes) returns (text: Bytes)
      requires Encodable(input)
      ensures text == Encoded(input)
    {
      if input == [] {
        return [];
      }
      var data := input;
      while true
        invariant !ReachesBlank(data) && Plain(data) == Plain(input)
        decreases |data|
      {
        var decoded := Decode(data);
        if decoded.None? {
          break;
        }
        data := decoded.value;
      }
      text := Encode(data);
    }

    method SetData(key: string, encodingKey: string, data: Bytes)
      requires Encodable(data)
      modifies this
      ensures options == old(options) + [OptionValue(key, Encoded(data)), OptionValue(encodingKey, BASE64)]
    {
      var text := EncodeData(data);
      options := options + [OptionValue(key, text), OptionValue(encodingKey, BASE64)];
    }

    /** The last part of `GetInitData`: rendered user data under the keys of its format, then
        the host name, which always encodes. Rendering that failed counts as empty user data. */
    method SetInitData(format: Format, rendered: Option<Bytes>, nodeName: Bytes) returns (ok: bool)
      requires rendered.Some? ==> Encodable(rendered.value)
      modifies this
      ensures ok <==> !format.Other?
      ensures !ok ==> options == old(options)
      ensures ok ==>
                options == old(options) + [
                 OptionValue(if format.Ignition? then "guestinfo.ignition.config.data" else "guestinfo.userdata",
                             if rendered.None? then [] else Encoded(rendered.value)),
                 OptionValue(if format.Ignition? then "guestinfo.ignition.config.data.encoding"
                             else "guestinfo.userdata.encoding", BASE64),
                 OptionValue("guestinfo.metadata", Encode(HostMetadata(nodeName))),
                 OptionValue("guestinfo.metadata.encoding", BASE64)]
    {
      var data := if rendered.None? then [] else rendered.value;
      match format {
        case Ignition => SetData(IGNITION_DATA, IGNITION_ENCODING, data);
        case CloudConfig => SetData(USER_DATA, USER_DATA_ENCODING, data);
        case Other => return false;
      }
      HostMetadataIsPlain(nodeName);
      SetData(METADATA, METADATA_ENCODING, HostMetadata(nodeName));
      ok := true;
    }
  }

  // ---------------------------------------------------------------------------
  // Termination.
  // ---------------------------------------------------------------------------

  /** The loop's data after `n` turns, `None` once it has been left. */
  ghost function AfterTurns(s: Bytes, n: nat): Option<Bytes> {
    if n == 0 then Some(s)
    else match AfterTurns(s, n - 1)
      case None => None
      case Some(t) => Decode(t)
  }

  lemma {:induction false} FirstTurnFirst(s: Bytes, n: nat)
    ensures AfterTurns(s, n + 1) == match Decode(s) case None => None case Some(d) => AfterTurns(d, n)
  {
    if n > 0 {
      FirstTurnFirst(s, n - 1);
    }
  }

  lemma {:induction false} BlankStaysInside(s: Bytes, n: nat)
    requires ReachesBlank(s)
    ensures AfterTurns(s, n).Some? && ReachesBlank(AfterTurns(s, n).value)
  {
    if n > 0 {
      BlankStaysInside(s, n - 1);
    }
  }

  lemma {:induction false} PlainIsReached(s: Bytes) returns (n: nat)
    requires !ReachesBlank(s)
    ensures AfterTurns(s, n) == None
    decreases |s|
  {
    if Decode(s).None? {
      n := 1;
      FirstTurnFirst(s, 0);
    } else {
      n := PlainIsReached(Decode(s).value);
      FirstTurnFirst(s, n);
      n := n + 1;
    }
  }

  /** The loop is left after finitely many turns if and only if the data does not decode, in
      any number of steps, to line breaks only. */
  lemma LoopEndsIffNeverBlank(s: Bytes)
    ensures (exists n :: AfterTurns(s, n) == None) <==> !ReachesBlank(s)
  {
    if ReachesBlank(s) {
      forall n ensures AfterTurns(s, n) != None { BlankStaysInside(s, n); }
    } else {
      var n := PlainIsReached(s);
    }
  }

  /** It never is left on a line feed, nor on a line feed in base64. */
  lemma LineFeedNeverEnds(n: nat)
    ensures AfterTurns([LF], n).Some? && AfterTurns(Encode([LF]), n).Some?
  {
    assert Strip([LF]) == [];
    DecodeEncode([LF]);
    BlankStaysInside([LF], n);
    BlankStaysInside(Encode([LF]), n);
  }

  // ---------------------------------------------------------------------------
  // What the normalisation does.
  // ---------------------------------------------------------------------------

  function Wrapped(d: Bytes, layers: nat): Bytes {
    if layers == 0 then d else Encode(Wrapped(d, layers - 1))
  }

  /** However many layers plain data comes in, one is left. */
  lemma {:induction false} LayersCollapse(d: Bytes, layers: nat)
    requires d != [] && Decode(d).None?
    ensures Encodable(Wrapped(d, layers)) && Encoded(Wrapped(d, layers)) == Encode(d)
    ensures Wrapped(d, layers) != []
  {
    hide Encode, Decode;
    if layers > 0 {
      LayersCollapse(d, layers - 1);
      DecodeEncode(Wrapped(d, layers - 1));
    }
  }

  /** Normalising what is normal changes nothing. */
  lemma {:induction false} Idempotent(data: Bytes)
    requires Encodable(data)
    ensures Encodable(Encoded(data)) && Encoded(Encoded(data)) == Encoded(data)
  {
    if data != [] {
      LayersCollapse(Plain(data), 1);
    }
  }

  /** The guest decodes back what was passed in exactly when that was not itself base64. */
  lemma FaithfulIffNotBase64(data: Bytes)
    requires Encodable(data)
    ensures Decode(Encoded(data)) == Some(data) <==> data == [] || Decode(data).None?
  {
    if data != [] {
      DecodeEncode(Plain(data));
    }
  }

  /** Cloud-config and JSON texts are not base64: they are encoded as they are. */
  lemma UserDataIsPlain(data: Bytes)
    requires data != [] && (data[0] == '#' as int || data[0] == '{' as int)
    ensures Encodable(data) && Encoded(data) == Encode(data)
  {
    ForeignByteFails(data, data[0]);
  }

  lemma {:induction false} HostMetadataIsPlain(nodeName: Bytes)
    ensures Encodable(HostMetadata(nodeName)) && Encoded(HostMetadata(nodeName)) == Encode(HostMetadata(nodeName))
  {
    var m := HostMetadata(nodeName);
    var prefix := "local-hostname: \"";
    assert m[14] == ':' as int by { assert prefix[14] == ':' && Ascii(prefix)[14] == ':' as int; }
    ForeignByteFails(m, m[14]);
  }
}
