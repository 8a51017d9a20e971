/**
  The settings file: its byte format, loading from and saving over arbitrary contents, and the
  copy in RAM that remembers, across plugin restarts, the power state before the last reboot.

  The layout is that of the packed C structure on a little-endian machine: four-byte words for
  magic, version, length, power state, two unused LED words and the deep-sleep timeout, one byte
  for network standby, and three bytes of padding.
 */
module SettingsFile {
  import opened PowerTypes

  type byte = b: int | 0 <= b < 0x100
  type u32 = n: int | 0 <= n < 0x1_0000_0000

  const UIMGR_SETTINGS_MAGIC: u32 := 0xFEBEEFAC
  const V1: u32 := 1
  const HEADER_SIZE: nat := 12
  const SIZE: u32 := 32
  const DEFAULT_DEEP_SLEEP_TIMEOUT: u32 := 8 * 60 * 60

  datatype Settings = Settings(
    magic: u32,
    version: u32,
    powerState: PowerState,
    powerStateBeforeReboot: PowerState,
    deepSleepTimeout: u32,
    nwStandbyMode: bool)

  /** The platform's numbering of the power states, whatever it is. */
  datatype Numbering = Numbering(off: u32, standby: u32, on: u32, lightSleep: u32, deepSleep: u32, max: u32)

  type Codes = c: Numbering |
      && c.off !in {c.standby, c.on, c.lightSleep, c.deepSleep, c.max}
      && c.standby !in {c.on, c.lightSleep, c.deepSleep, c.max}
      && c.on !in {c.lightSleep, c.deepSleep, c.max}
      && c.lightSleep !in {c.deepSleep, c.max}
      && c.deepSleep != c.max
    witness Numbering(0, 1, 2, 3, 4, 5)

  function ToPlatform(codes: Codes, state: PowerState): u32 {
    match state
    case Off => codes.off
    case On => codes.on
    case Standby => codes.standby
    case StandbyLightSleep => codes.lightSleep
    case StandbyDeepSleep => codes.deepSleep
    case Unknown => codes.max
  }

  function FromPlatform(codes: Codes, code: u32): PowerState {
    if code == codes.off then Off
    else if code == codes.on then On
    else if code == codes.standby then Standby
    else if code == codes.lightSleep then StandbyLightSleep
    else if code == codes.deepSleep then StandbyDeepSleep
    else Unknown
  }

  function Word(n: u32): seq<byte> {
    [n % 0x100, n / 0x100 % 0x100, n / 0x100 / 0x100 % 0x100, n / 0x100 / 0x100 / 0x100]
  }

  function WordAt(bytes: seq<byte>, at: nat): u32
    requires at + 4 <= |bytes|
  {
    var b0: int, b1: int, b2: int, b3: int := bytes[at], bytes[at + 1], bytes[at + 2], bytes[at + 3];
    b0 + 0x100 * b1 + 0x1_0000 * b2 + 0x100_0000 * b3
  }

  function Words(words: seq<u32>): (bytes: seq<byte>)
    ensures |bytes| == 4 * |words|
  {
    if words == [] then [] else Word(words[0]) + Words(words[1..])
  }

  lemma WordRoundTrip(n: u32, rest: seq<byte>)
    ensures WordAt(Word(n) + rest, 0) == n
  {
    var high: int := n / 0x100;
    assert n == n % 0x100 + 0x100 * high;
    assert high == high % 0x100 + 0x100 * (high / 0x100);
  }

  lemma ShiftedWord(bytes: seq<byte>, rest: seq<byte>, at: nat)
    requires at + 4 <= |rest| && |bytes| == 4
    ensures WordAt(bytes + rest, at + 4) == WordAt(rest, at)
  {
  }

  lemma {:induction false} WordsRoundTrip(words: seq<u32>, rest: seq<byte>, k: nat)
    requires k < |words|
    ensures WordAt(Words(words) + rest, 4 * k) == words[k]
  {
    var bytes := Words(words) + rest;
    var tail := Words(words[1..]) + rest;
    assert bytes == Word(words[0]) + tail;
    if k == 0 {
      WordRoundTrip(words[0], tail);
    } else {
      WordsRoundTrip(words[1..], rest, k - 1);
      ShiftedWord(Word(words[0]), tail, 4 * (k - 1));
    }
  }

  function Encode(codes: Codes, s: Settings): (bytes: seq<byte>)
    ensures |bytes| == SIZE
  {
    Words([s.magic, s.version, SIZE, ToPlatform(codes, s.powerState), 0, 0, s.deepSleepTimeout])
    + [if s.nwStandbyMode then 1 else 0, 0, 0, 0]
  }

  /** Writing at the start of a file does not truncate what follows. */
  function Overwrite(file: seq<byte>, bytes: seq<byte>): seq<byte> {
    bytes + (if |file| > |bytes| then file[|bytes|..] else [])
  }

  /** What a freshly constructed object holds before it is loaded. */
  function Blank(): Settings {
    Settings(0, 0xFFFF_FFFF, On, On, DEFAULT_DEEP_SLEEP_TIMEOUT, false)
  }

  function Defaults(): Settings {
    Blank().(magic := UIMGR_SETTINGS_MAGIC, version := V1)
  }

  /** Version-1 settings can be read: the header is complete, announces them, and nothing is missing. */
  predicate Readable(file: seq<byte>) {
    && HEADER_SIZE <= |file|
    && WordAt(file, 4) == V1
    && WordAt(file, 8) == SIZE
    && SIZE <= |file|
  }

  function Decode(codes: Codes, file: seq<byte>): Settings
    requires Readable(file)
  {
    Blank().(magic := WordAt(file, 0),
             version := WordAt(file, 4),
             powerState := FromPlatform(codes, WordAt(file, 12)),
             deepSleepTimeout := WordAt(file, 24),
             nwStandbyMode := file[28] != 0)
  }

  /** Loading one file: the settings, and what the file then holds. */
  function LoadFile(codes: Codes, file: seq<byte>): (Settings, seq<byte>) {
    if Readable(file) then (Decode(codes, file), file)
    else (Defaults(), Overwrite(file, Encode(codes, Defaults())))
  }

  /** What saving keeps: everything but the state before the reboot, which is not written. */
  predicate SamePersisted(s: Settings, t: Settings) {
    && (s.magic, s.version, s.powerState) == (t.magic, t.version, t.powerState)
    && (s.deepSleepTimeout, s.nwStandbyMode) == (t.deepSleepTimeout, t.nwStandbyMode)
  }

  lemma EncodedWords(codes: Codes, s: Settings, rest: seq<byte>)
    ensures var file := Encode(codes, s) + rest;
            && WordAt(file, 0) == s.magic && WordAt(file, 4) == s.version && WordAt(file, 8) == SIZE
            && (match s.powerState
                case Off => WordAt(file, 12) == codes.off
                case On => WordAt(file, 12) == codes.on
                case Standby => WordAt(file, 12) == codes.standby
                case StandbyLightSleep => WordAt(file, 12) == codes.lightSleep
                case StandbyDeepSleep => WordAt(file, 12) == codes.deepSleep
                case Unknown => WordAt(file, 12) == codes.max)
            && WordAt(file, 16) == WordAt(file, 20) == 0 && WordAt(file, 24) == s.deepSleepTimeout
            && file[28] == (if s.nwStandbyMode then 1 else 0)
            && file[29] == file[30] == file[31] == 0
  {
    var words := [s.magic, s.version, SIZE, ToPlatform(codes, s.powerState), 0, 0, s.deepSleepTimeout];
    var tail := [if s.nwStandbyMode then 1 else 0, 0, 0, 0] + rest;
    assert Encode(codes, s) + rest == Words(words) + tail;
    forall k: nat | k < |words|
      ensures WordAt(Words(words) + tail, 4 * k) == words[k]
    {
      WordsRoundTrip(words, tail, k);
    }
    assert WordAt(Words(words) + tail, 4 * 0) == s.magic;
    assert WordAt(Words(words) + tail, 4 * 1) == s.version;
    assert WordAt(Words(words) + tail, 4 * 2) == SIZE;
    assert WordAt(Words(words) + tail, 4 * 3) == words[3];
    assert WordAt(Words(words) + tail, 4 * 4) == 0;
    assert WordAt(Words(words) + tail, 4 * 5) == 0;
    assert WordAt(Words(words) + tail, 4 * 6) == s.deepSleepTimeout;
  }

  /** Saving version-1 settings over any contents and loading them gives them back, and leaves the file alone. */
  lemma SaveThenLoad(codes: Codes, s: Settings, file: seq<byte>)
    requires s.version == V1
    ensures var saved := Overwrite(file, Encode(codes, s));
            && Readable(saved)
            && SamePersisted(LoadFile(codes, saved).0, s)
            && LoadFile(codes, saved) == (s.(powerStateBeforeReboot := On), saved)
            && |saved| == (if |file| > SIZE then |file| else SIZE)
            && (forall i :: SIZE <= i < |file| ==> saved[i] == file[i])
  {
    EncodedWords(codes, s, if |file| > |Encode(codes, s)| then file[|Encode(codes, s)|..] else []);
  }

  /** Whatever a file holds, loading it leaves one whose reload yields the same settings. */
  lemma LoadIsStable(codes: Codes, file: seq<byte>)
    ensures var (s, after) := LoadFile(codes, file);
            && s.version == V1 && Readable(after)
            && LoadFile(codes, after) == (s, after)
  {
    if !Readable(file) {
      SaveThenLoad(codes, Defaults(), file);
    }
  }

  /** What every file is loaded as: what it says if it says it completely in version 1, and the defaults if not. */
  lemma LoadFileExactly(codes: Codes, file: seq<byte>)
    ensures var (s, after) := LoadFile(codes, file);
            if |file| >= 32 && WordAt(file, 4) == 1 && WordAt(file, 8) == 32 then
              && after == file
              && (s.magic, s.version, s.powerStateBeforeReboot) == (WordAt(file, 0), 1, On)
              && (s.deepSleepTimeout, s.nwStandbyMode) == (WordAt(file, 24), file[28] != 0)
              && (s.powerState == Off <==> WordAt(file, 12) == codes.off)
              && (s.powerState == On <==> WordAt(file, 12) == codes.on)
              && (s.powerState == Standby <==> WordAt(file, 12) == codes.standby)
              && (s.powerState == StandbyLightSleep <==> WordAt(file, 12) == codes.lightSleep)
              && (s.powerState == StandbyDeepSleep <==> WordAt(file, 12) == codes.deepSleep)
            else
              && s == Settings(0xFEBEEFAC, 1, On, On, 28800, false)
              && |after| == (if |file| > 32 then |file| else 32)
              && after[..32] == [0xAC, 0xEF, 0xBE, 0xFE, 1, 0, 0, 0, 32, 0, 0, 0] + Word(codes.on)
                                + [0, 0, 0, 0, 0, 0, 0, 0, 0x80, 0x70, 0, 0, 0, 0, 0, 0]
              && forall i :: 32 <= i < |file| ==> after[i] == file[i]
  {
    if !Readable(file) {
      DefaultBytes(codes);
    }
  }

  /** The bytes of the defaults, low byte first. */
  lemma DefaultBytes(codes: Codes)
    ensures Encode(codes, Defaults()) ==
            [0xAC, 0xEF, 0xBE, 0xFE, 1, 0, 0, 0, 32, 0, 0, 0] + Word(codes.on)
            + [0, 0, 0, 0, 0, 0, 0, 0, 0x80, 0x70, 0, 0, 0, 0, 0, 0]
  {
    assert Word(0xFEBEEFAC) == [0xAC, 0xEF, 0xBE, 0xFE] && Word(28800) == [0x80, 0x70, 0, 0];
    assert Word(1) == [1, 0, 0, 0] && Word(32) == [32, 0, 0, 0] && Word(0) == [0, 0, 0, 0];
    assert ToPlatform(codes, On) == codes.on;
    hide Word, Words;
    SevenWords(0xFEBEEFAC, 1, 32, codes.on, 0, 0, 28800);
  }

  lemma SevenWords(a: u32, b: u32, c: u32, d: u32, e: u32, f: u32, g: u32)
    ensures Words([a, b, c, d, e, f, g]) == Word(a) + Word(b) + Word(c) + Word(d) + Word(e) + Word(f) + Word(g)
  {
    hide Word;
    FirstWord(a, [b, c, d, e, f, g]);
    FirstWord(b, [c, d, e, f, g]);
    FirstWord(c, [d, e, f, g]);
    FirstWord(d, [e, f, g]);
    FirstWord(e, [f, g]);
    FirstWord(f, [g]);
    FirstWord(g, []);
  }

  lemma FirstWord(word: u32, words: seq<u32>)
    ensures Words([word] + words) == Word(word) + Words(words)
  {
    assert ([word] + words)[1..] == words;
  }

  /** The two files; `None` is a file that does not exist. */
  datatype Files = Files(opt: Option<seq<byte>>, ram: Option<seq<byte>>)

  function Contents(file: Option<seq<byte>>): seq<byte> {
    if file.Some? then file.value else []
  }

  /** Loading at plugin start, in builds that do not boot to standby. */
  function Load(codes: Codes, files: Files): (Settings, Files) {
    var (s, opt) := LoadFile(codes, Contents(files.opt));
    match files.ram
    case None =>
      (s.(powerStateBeforeReboot := s.powerState), Files(Some(opt), Some(Overwrite([], Encode(codes, s)))))
    case Some(copy) =>
      var (r, ram) := LoadFile(codes, copy);
      (s.(powerStateBeforeReboot := r.powerState), Files(Some(opt), Some(ram)))
  }

  function Save(codes: Codes, s: Settings, files: Files): Files {
    files.(opt := Some(Overwrite(Contents(files.opt), Encode(codes, s))))
  }

  /** Starting the plugin: everything comes from the persistent file but the state before the reboot. */
  lemma LoadExactly(codes: Codes, files: Files)
    ensures var (s, files') := Load(codes, files);
            var (opt, contents) := LoadFile(codes, if files.opt.Some? then files.opt.value else []);
            && s.(powerStateBeforeReboot := On) == opt
            && files'.opt == Some(contents)
            && files'.ram.Some?
            && s.powerStateBeforeReboot == LoadFile(codes, files'.ram.value).0.powerState
            && (files.ram == None ==> LoadFile(codes, files'.ram.value) == (opt, files'.ram.value) && |files'.ram.value| == 32)
            && (files.ram.Some? ==> LoadFile(codes, files.ram.value).1 == files'.ram.value)
  {
    LoadFileExactly(codes, Contents(files.opt));
    LoadIsStable(codes, Contents(files.opt));
    if files.ram == None {
      SaveThenLoad(codes, LoadFile(codes, Contents(files.opt)).0, []);
    } else {
      LoadIsStable(codes, files.ram.value);
    }
  }

  /** Saving touches the persistent file only, whose reload then gives the settings back. */
  lemma SaveExactly(codes: Codes, s: Settings, files: Files)
    requires s.version == V1
    ensures var files' := Save(codes, s, files);
            && files'.ram == files.ram && files'.opt.Some?
            && LoadFile(codes, files'.opt.value) == (s.(powerStateBeforeReboot := On), files'.opt.value)
  {
    SaveThenLoad(codes, s, Contents(files.opt));
  }

  /** What can happen to the files between two reboots. */
  datatype Happening =
    | Restart                        // the plugin starts again
    | Saved(settings: Settings)      // it saves its settings
    | Disturbed(opt: Option<seq<byte>>)  // somebody else rewrites or removes the persistent file

  function After(codes: Codes, files: Files, h: Happening): Files {
    match h
    case Restart => Load(codes, files).1
    case Saved(s) => Save(codes, s, files)
    case Disturbed(opt) => files.(opt := opt)
  }

  function AfterAll(codes: Codes, files: Files, history: seq<Happening>): Files
    decreases |history|
  {
    if history == [] then files
    else After(codes, AfterAll(codes, files, history[..|history| - 1]), history[|history| - 1])
  }

  /** The copy in RAM holds a power state. */
  predicate Remembers(codes: Codes, files: Files, state: PowerState) {
    files.ram.Some? && Readable(files.ram.value) && Decode(codes, files.ram.value).powerState == state
  }

  lemma FirstLoadRemembers(codes: Codes, opt: Option<seq<byte>>)
    ensures var (s, files) := Load(codes, Files(opt, None));
            s.powerStateBeforeReboot == s.powerState && Remembers(codes, files, s.powerState)
  {
    LoadIsStable(codes, Contents(opt));
    SaveThenLoad(codes, LoadFile(codes, Contents(opt)).0, []);
  }

  lemma {:induction false} RemembersThroughout(codes: Codes, files: Files, state: PowerState, history: seq<Happening>)
    requires Remembers(codes, files, state)
    ensures Remembers(codes, AfterAll(codes, files, history), state)
    decreases |history|
  {
    if history != [] {
      RemembersThroughout(codes, files, state, history[..|history| - 1]);
    }
  }

  /**
    After a reboot (which empties RAM), every start of the plugin reports as the state before
    the reboot the one that was persisted at the first start, whatever was saved since.
   */
  lemma BeforeRebootIsStable(codes: Codes, opt: Option<seq<byte>>, history: seq<Happening>)
    ensures var (first, files) := Load(codes, Files(opt, None));
            var (again, _) := Load(codes, AfterAll(codes, files, history));
            && first.powerStateBeforeReboot == LoadFile(codes, Contents(opt)).0.powerState
            && again.powerStateBeforeReboot == first.powerStateBeforeReboot
  {
    FirstLoadRemembers(codes, opt);
    var (first, files) := Load(codes, Files(opt, None));
    RemembersThroughout(codes, files, first.powerState, history);
  }

  /** The files, updated in place. */
  class SettingsStore {
    const codes: Codes
    var opt: Option<seq<byte>>
    var ram: Option<seq<byte>>

    ghost function View(): Files
      reads this
    {
      Files(opt, ram)
    }

    constructor (codes: Codes, files: Files)
      ensures this.codes == codes && View() == files
    {
      this.codes, opt, ram := codes, files.opt, files.ram;
    }

    /** Opens a file for reading and writing, and replaces what cannot be read. */
    method ReadOrReset(file: Option<seq<byte>>) returns (s: Settings, contents: seq<byte>)
      ensures (s, contents) == LoadFile(codes, Contents(file))
    {
      s := Blank();
      contents := if file.Some? then file.value else [];
      var ok := false;
      if |contents| >= HEADER_SIZE {
        if WordAt(contents, 4) == V1 {
          if WordAt(contents, 8) == SIZE && |contents| >= SIZE {
            s := s.(magic := WordAt(contents, 0),
                    version := WordAt(contents, 4),
                    powerState := FromPlatform(codes, WordAt(contents, 12)),
                    deepSleepTimeout := WordAt(contents, 24),
                    nwStandbyMode := contents[28] != 0);
            ok := true;
          }
        }
      }
      if !ok {
        s := s.(magic := UIMGR_SETTINGS_MAGIC, version := V1);
        contents := Overwrite(contents, Encode(codes, s));
      }
    }

    method LoadSettings() returns (s: Settings)
      modifies this
      ensures (s, View()) == Load(codes, old(View()))
      ensures s.version == V1
    {
      LoadIsStable(codes, Contents(opt));
      var contents;
      s, contents := ReadOrReset(opt);
      opt := Some(contents);
      s := s.(powerStateBeforeReboot := s.powerState);
      if ram.None? {
        ram := Some(Overwrite([], Encode(codes, s)));
      } else {
        var ramSettings;
        ramSettings, contents := ReadOrReset(ram);
        ram := Some(contents);
        s := s.(powerStateBeforeReboot := ramSettings.powerState);
      }
    }

    method SaveSettings(s: Settings)
      modifies this`opt
      ensures View() == Save(codes, s, old(View()))
      ensures s.version == V1 ==> SamePersisted(LoadFile(codes, Contents(opt)).0, s)
    {
      if s.version == V1 {
        SaveThenLoad(codes, s, Contents(opt));
      }
      opt := Some(Overwrite(if opt.Some? then opt.value else [], Encode(codes, s)));
    }
  }
}
