/** The game-data blob of a LAN announcement: every field can be read back, whatever the lobby is called. */
module GameData {
  import opened Bytes
  import opened Text
  import StatString

  const SETTING_FLAGS: u32 := 0x0006_7802
  const OBSERVERS_FULL: u32 := 0x0010_0000

  /** What a lobby descriptor contributes. */
  datatype Descriptor = Descriptor(
    name: string,
    maximumPlayers: u8,
    mapPath: string,
    width: u16,
    height: u16,
    checksum: u32,
    sha1: seq<u8>,
    hostName: string)

  predicate ValidDescriptor(d: Descriptor)
  {
    && ValidGameName(d.name)
    && d.mapPath != "" && '\0' !in d.mapPath
    && |d.sha1| == 20
    && ValidPlayerName(d.hostName)
  }

  /** Warcraft's map paths use forward slashes. */
  function ForwardSlashes(path: string): (wire: string)
  {
    if path == "" then "" else [if path[0] == '\\' then '/' else path[0]] + ForwardSlashes(path[1..])
  }

  lemma {:induction false} SlashesKeepNulAway(path: string)
    requires '\0' !in path
    ensures '\0' !in ForwardSlashes(path)
  {
    if path != "" {
      SlashesKeepNulAway(path[1..]);
    }
  }

  /** Slashes are turned, and nothing else is touched. */
  lemma {:induction false} OnlySlashesTurn(path: string, i: nat)
    requires i < |path|
    ensures |ForwardSlashes(path)| == |path|
    ensures ForwardSlashes(path)[i] == if path[i] == '\\' then '/' else path[i]
  {
    if |path| > 1 {
      OnlySlashesTurn(path[1..], if i > 0 then i - 1 else 0);
    } else {
      assert path[1..] == "";
    }
  }

  function CString(s: string): (bytes: seq<u8>)
  {
    Utf8(s) + [0]
  }

  function Settings(d: Descriptor): (bytes: seq<u8>)
  {
    Le(4, SETTING_FLAGS) + [0] + Le(2, d.width) + Le(2, d.height) + Le(4, d.checksum)
    + CString(ForwardSlashes(d.mapPath)) + CString(d.hostName) + [0] + d.sha1
  }

  method EncodeGameSettings(d: Descriptor) returns (settings: seq<u8>)
    ensures settings == Settings(d)
  {
    var mapPath := ForwardSlashes(d.mapPath);
    settings := Le(4, SETTING_FLAGS);
    settings := settings + [0];
    settings := settings + Le(2, d.width);
    settings := settings + Le(2, d.height);
    settings := settings + Le(4, d.checksum);
    settings := PushCString(settings, mapPath);
    settings := PushCString(settings, d.hostName);
    settings := settings + [0];
    settings := settings + d.sha1;
  }

  method PushCString(buffer: seq<u8>, value: string) returns (extended: seq<u8>)
    ensures extended == buffer + CString(value)
  {
    extended := buffer + Utf8(value);
    extended := extended + [0];
  }

  function Blob(d: Descriptor, port: u16): (bytes: seq<u8>)
  {
    CString(d.name) + [0] + StatString.Encode(Settings(d)) + [0]
    + Le(4, d.maximumPlayers) + Le(4, OBSERVERS_FULL) + Le(2, port)
  }

  method EncodeGameData(d: Descriptor, port: u16) returns (output: seq<u8>)
    ensures output == Blob(d, port)
  {
    var settings := EncodeGameSettings(d);
    var encoded := StatString.EncodeStatString(settings);
    output := PushCString([], d.name);
    output := output + [0];
    output := output + encoded;
    output := output + [0];
    output := output + Le(4, d.maximumPlayers);
    output := output + Le(4, OBSERVERS_FULL);
    output := output + Le(2, port);
  }

  // Reading it back.

  /** Everything before the first NUL, and everything after it. */
  function UntilNul(bytes: seq<u8>): (r: Option<(seq<u8>, seq<u8>)>)
  {
    if bytes == [] then None
    else if bytes[0] == 0 then Some(([], bytes[1..]))
    else
      var rest := UntilNul(bytes[1..]);
      if rest.None? then None else Some(([bytes[0]] + rest.value.0, rest.value.1))
  }

  lemma {:induction false} NulEnds(head: seq<u8>, tail: seq<u8>)
    requires 0 !in head
    ensures UntilNul(head + [0] + tail) == Some((head, tail))
  {
    if head != [] {
      NulEnds(head[1..], tail);
      assert (head + [0] + tail)[1..] == head[1..] + [0] + tail;
      assert [head[0]] + head[1..] == head;
    } else {
      assert ([] + [0] + tail)[1..] == tail;
    }
  }

  /** The fields of the settings, as bytes. */
  datatype SettingFields = SettingFields(
    flags: u32, width: u16, height: u16, checksum: u32, mapPath: seq<u8>, hostName: seq<u8>, sha1: seq<u8>)

  function ReadSettings(bytes: seq<u8>): (r: Option<SettingFields>)
  {
    if |bytes| < 13 || bytes[4] != 0 then None
    else
      var path := UntilNul(bytes[13..]);
      if path.None? then None
      else
        var host := UntilNul(path.value.1);
        if host.None? || host.value.1 == [] || host.value.1[0] != 0 then None
        else
          Some(SettingFields(FromLe32(bytes[..4]),
                             FromLe16(bytes[5..7]), FromLe16(bytes[7..9]), FromLe32(bytes[9..13]),
                             path.value.0, host.value.0, host.value.1[1..]))
  }

  lemma SettingsReadable(d: Descriptor)
    requires ValidDescriptor(d)
    ensures ReadSettings(Settings(d)) ==
              Some(SettingFields(SETTING_FLAGS, d.width, d.height, d.checksum,
                                 Utf8(ForwardSlashes(d.mapPath)), Utf8(d.hostName), d.sha1))
  {
    hide Utf8, ValidPlayerName, ValidGameName, Le, UntilNul, FromLe16, FromLe32, ForwardSlashes;
    var bytes := Settings(d);
    var path, host := Utf8(ForwardSlashes(d.mapPath)), Utf8(d.hostName);
    assert bytes[..4] == Le(4, SETTING_FLAGS);
    assert bytes[5..7] == Le(2, d.width);
    assert bytes[7..9] == Le(2, d.height);
    assert bytes[9..13] == Le(4, d.checksum);
    Le32RoundTrip(SETTING_FLAGS);
    Le16RoundTrip(d.width);
    Le16RoundTrip(d.height);
    Le32RoundTrip(d.checksum);
    SlashesKeepNulAway(d.mapPath);
    Utf8WithoutNul(ForwardSlashes(d.mapPath));
    NameWithoutNul(d.hostName);
    var tail := [0] + d.sha1;
    assert bytes[13..] == path + [0] + (host + [0] + tail);
    NulEnds(path, host + [0] + tail);
    NulEnds(host, tail);
    assert tail[1..] == d.sha1;
  }

  lemma NameWithoutNul(name: string)
    requires ValidPlayerName(name)
    ensures 0 !in Utf8(name)
  {
    assert '\0' !in name by {
      assert IsControl('\0');
    }
    Utf8WithoutNul(name);
  }

  datatype BlobFields = BlobFields(name: seq<u8>, settings: SettingFields, maximumPlayers: u32, flags: u32, port: u16)

  function ReadBlob(bytes: seq<u8>): (r: Option<BlobFields>)
  {
    var name := UntilNul(bytes);
    if name.None? || name.value.1 == [] || name.value.1[0] != 0 then None
    else
      var stat := UntilNul(name.value.1[1..]);
      if stat.None? || |stat.value.1| != 10 then None
      else
        var settings := ReadSettings(StatString.Decode(stat.value.0));
        var tail := stat.value.1;
        if settings.None? then None
        else
          Some(BlobFields(name.value.0, settings.value,
                          FromLe32(tail[..4]), FromLe32(tail[4..8]), FromLe16(tail[8..10])))
  }

  function FieldsOf(d: Descriptor, port: u16): (fields: BlobFields)
  {
    BlobFields(Utf8(d.name),
               SettingFields(SETTING_FLAGS, d.width, d.height, d.checksum,
                             Utf8(ForwardSlashes(d.mapPath)), Utf8(d.hostName), d.sha1),
               d.maximumPlayers, OBSERVERS_FULL, port)
  }

  /** The blob of a valid descriptor can be taken apart again: no field runs into another. */
  lemma BlobReadable(d: Descriptor, port: u16)
    requires ValidDescriptor(d)
    ensures ReadBlob(Blob(d, port)) == Some(FieldsOf(d, port))
  {
    hide Utf8, ValidPlayerName, Le, Settings, ReadSettings, UntilNul, StatString.Encode, StatString.Decode;
    var name := Utf8(d.name);
    var stat := StatString.Encode(Settings(d));
    var tail := Le(4, d.maximumPlayers) + Le(4, OBSERVERS_FULL) + Le(2, port);
    Utf8WithoutNul(d.name);
    StatString.EncodingIsOdd(Settings(d));
    StatString.RoundTrip(Settings(d));
    SettingsReadable(d);
    assert Blob(d, port) == name + [0] + ([0] + (stat + [0] + tail));
    NulEnds(name, [0] + (stat + [0] + tail));
    assert ([0] + (stat + [0] + tail))[1..] == stat + [0] + tail;
    NulEnds(stat, tail);
    assert tail[..4] == Le(4, d.maximumPlayers);
    assert tail[4..8] == Le(4, OBSERVERS_FULL);
    assert tail[8..10] == Le(2, port);
    Le32RoundTrip(d.maximumPlayers);
    Le32RoundTrip(OBSERVERS_FULL);
    Le16RoundTrip(port);
  }

  /** Two lobbies with the same blob agree on everything announced, map paths up to the direction of slashes. */
  lemma BlobIsUnambiguous(a: Descriptor, portA: u16, b: Descriptor, portB: u16)
    requires ValidDescriptor(a) && ValidDescriptor(b) && Blob(a, portA) == Blob(b, portB)
    ensures a.(mapPath := b.mapPath) == b && portA == portB
    ensures ForwardSlashes(a.mapPath) == ForwardSlashes(b.mapPath)
  {
    BlobReadable(a, portA);
    BlobReadable(b, portB);
    Utf8IsInjective(a.name, b.name);
    Utf8IsInjective(a.hostName, b.hostName);
    Utf8IsInjective(ForwardSlashes(a.mapPath), ForwardSlashes(b.mapPath));
  }
}
