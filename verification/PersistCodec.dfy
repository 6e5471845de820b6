/** The line format settings are saved in: escape, unescape and the split of a loaded line. */
module PersistCodec {

  // ---- escaping into a bounded buffer ----

  /** The letter that stands for a reserved character after a backslash; any other stands for itself. */
  function Letter(c: char): char {
    if c == '|' then 'c' else if c == '=' then 'e' else if c == '\n' then 'n' else if c == '\r' then 'r' else c
  }

  predicate Reserved(c: char) {
    c == '\\' || c == '|' || c == '=' || c == '\n' || c == '\r'
  }

  function EscapeChar(c: char): string {
    if Reserved(c) then ['\\', Letter(c)] else [c]
  }

  function Escaped(s: string): string {
    if s == "" then "" else EscapeChar(s[0]) + Escaped(s[1..])
  }

  lemma {:induction false} EscapedSnoc(s: string, c: char)
    ensures Escaped(s + [c]) == Escaped(s) + EscapeChar(c)
    decreases |s|
  {
    if s == "" {
      assert (s + [c])[1..] == "";
    } else {
      assert (s + [c])[1..] == s[1..] + [c];
      EscapedSnoc(s[1..], c);
    }
  }

  lemma EscapedNext(s: string, i: nat)
    requires i < |s|
    ensures Escaped(s[..i + 1]) == Escaped(s[..i]) + EscapeChar(s[i])
  {
    assert s[..i + 1] == s[..i] + [s[i]];
    EscapedSnoc(s[..i], s[i]);
  }

  /** How many source characters, from `i` on, still fit a buffer with its terminator. */
  function Kept(s: string, i: nat, room: nat): (n: nat)
    requires i <= |s|
    ensures i <= n <= |s|
    decreases |s| - i
  {
    if i < |s| && |Escaped(s[..i + 1])| < room then Kept(s, i + 1, room) else i
  }

  /** The longest prefix whose escape fits, and no shorter one. */
  lemma {:induction false} KeptIsLongest(s: string, i: nat, room: nat)
    requires i <= |s| && |Escaped(s[..i])| < room
    ensures |Escaped(s[..Kept(s, i, room)])| < room
    ensures Kept(s, i, room) < |s| ==> |Escaped(s[..Kept(s, i, room) + 1])| >= room
    decreases |s| - i
  {
    if i < |s| && |Escaped(s[..i + 1])| < room {
      KeptIsLongest(s, i + 1, room);
    }
  }

  lemma {:induction false} EscapedGrows(s: string, i: nat)
    requires i <= |s|
    ensures i <= |Escaped(s[..i])| <= |Escaped(s)|
    decreases |s|
  {
    if i > 0 {
      assert s[..i][1..] == s[1..][..i - 1];
      EscapedGrows(s[1..], i - 1);
    } else {
      assert s[..i] == "";
    }
  }

  /** Everything is kept exactly when the whole escape fits. */
  lemma KeptAll(s: string, room: nat)
    requires room > 0
    ensures Kept(s, 0, room) == |s| <==> |Escaped(s)| < room
  {
    assert s[..0] == "" && s[..|s|] == s;
    KeptIsLongest(s, 0, room);
    if Kept(s, 0, room) < |s| {
      EscapedGrows(s, Kept(s, 0, room) + 1);
    }
  }

  /** A full buffer holds the escape of a prefix: never half an escape, always a terminator. */
  method PersistEscape(src: string, dst: array<char>) returns (n: nat)
    requires dst.Length > 0
    modifies dst
    ensures n < dst.Length && dst[n] == '\0'
    ensures dst[..n] == Escaped(src[..Kept(src, 0, dst.Length)])
  {
    hide Escaped;
    EscapedNothing(src);
    var pos, i := 0, 0;
    while i < |src| && pos + 1 < dst.Length
      invariant 0 <= i <= |src| && pos < dst.Length
      invariant dst[..pos] == Escaped(src[..i])
      invariant Kept(src, 0, dst.Length) == Kept(src, i, dst.Length)
    {
      EscapedNext(src, i);
      var c := src[i];
      ghost var done := dst[..pos];
      if Reserved(c) {
        if pos + 2 >= dst.Length {
          break;
        }
        dst[pos] := '\\';
        dst[pos + 1] := Letter(c);
        pos := pos + 2;
      } else {
        dst[pos] := c;
        pos := pos + 1;
      }
      assert dst[..pos] == done + EscapeChar(c);
      i := i + 1;
    }
    if i < |src| {
      EscapedNext(src, i);
    }
    dst[pos] := '\0';
    n := pos;
  }

  lemma EscapedNothing(src: string)
    ensures Escaped(src[..0]) == ""
  {
  }

  // ---- unescaping ----

  function Plain(letter: char): char {
    if letter == 'c' then '|'
    else if letter == 'e' then '='
    else if letter == 'n' then '\n'
    else if letter == 'r' then '\r'
    else letter
  }

  function First(text: string): (r: (char, nat))
    requires text != ""
    ensures 0 < r.1 <= |text|
  {
    if text[0] == '\\' && |text| > 1 then (Plain(text[1]), 2) else (text[0], 1)
  }

  function Unescaped(text: string, room: nat): (r: string)
    ensures |r| <= room
    decreases |text|
  {
    if text == "" || room == 0 then ""
    else [First(text).0] + Unescaped(text[First(text).1..], room - 1)
  }

  function Clip(s: string, n: nat): string {
    if |s| <= n then s else s[..n]
  }

  lemma FirstOfEscaped(c: char, tail: string)
    ensures First(EscapeChar(c) + tail) == (c, |EscapeChar(c)|)
    ensures (EscapeChar(c) + tail)[|EscapeChar(c)|..] == tail
  {
  }

  /** Unescaping undoes escaping, up to the room there is. */
  lemma {:induction false} UnescapeUndoes(s: string, room: nat)
    ensures Unescaped(Escaped(s), room) == Clip(s, room)
    decreases |s|
  {
    hide EscapeChar, First, Unescaped;
    if s == "" || room == 0 {
      UnescapeStop(Escaped(s), room);
    } else {
      FirstOfEscaped(s[0], Escaped(s[1..]));
      UnescapeStep("", Escaped(s), room);
      UnescapeUndoes(s[1..], room - 1);
      ClipStep(s, room);
      hide Clip, Escaped;
      assert Unescaped(Escaped(s), room) == "" + Unescaped(Escaped(s), room);
    }
  }

  lemma ClipStep(s: string, room: nat)
    requires s != "" && room > 0
    ensures Clip(s, room) == "" + [s[0]] + Clip(s[1..], room - 1)
  {
  }

  lemma UnescapeStep(done: string, text: string, room: nat)
    requires text != "" && room > 0
    ensures done + Unescaped(text, room) == done + [First(text).0] + Unescaped(text[First(text).1..], room - 1)
  {
  }

  lemma UnescapeStop(text: string, room: nat)
    requires text == "" || room == 0
    ensures Unescaped(text, room) == ""
  {
  }

  method PersistUnescape(src: string, dst: array<char>) returns (n: nat)
    requires dst.Length > 0
    modifies dst
    ensures n < dst.Length && dst[n] == '\0'
    ensures dst[..n] == Unescaped(src, dst.Length - 1)
  {
    hide Unescaped;
    var i, pos := 0, 0;
    ghost var whole := Unescaped(src, dst.Length - 1);
    assert src[0..] == src;
    while i < |src| && pos + 1 < dst.Length
      invariant 0 <= i <= |src| && pos < dst.Length
      invariant dst[..pos] + Unescaped(src[i..], dst.Length - 1 - pos) == whole
    {
      ghost var text, done := src[i..], dst[..pos];
      UnescapeStep(done, text, dst.Length - 1 - pos);
      var c := src[i];
      if c == '\\' && i + 1 < |src| {
        i := i + 1;
        assert src[i] == text[1];
        c := Plain(src[i]);
      }
      dst[pos] := c;
      i, pos := i + 1, pos + 1;
      assert dst[..pos] == done + [First(text).0];
      assert src[i..] == text[First(text).1..];
    }
    UnescapeStop(src[i..], dst.Length - 1 - pos);
    dst[pos] := '\0';
    n := pos;
    assert dst[..n] == whole;
  }

  // ---- lines and files ----

  datatype Setting = Setting(path: string, key: string, value: string)

  /** What a save writes for one setting: each part through its own buffer. */
  function Stored(s: string, room: nat): string {
    Escaped(s[..Kept(s, 0, room)])
  }

  function LineOf(s: Setting): string {
    Stored(s.path, 8192) + "|" + Stored(s.key, 1024) + "=" + Stored(s.value, 8192)
  }

  function FileOf(settings: seq<Setting>): string {
    if settings == [] then "" else LineOf(settings[0]) + "\n" + FileOf(settings[1..])
  }

  /** The text before the first `c`, all of it when there is none. */
  function UpTo(text: string, c: char): (r: string)
    ensures |r| <= |text|
  {
    if text == "" || text[0] == c then "" else [text[0]] + UpTo(text[1..], c)
  }

  lemma {:induction false} UpToExact(a: string, c: char, rest: string)
    requires c !in a
    ensures UpTo(a + [c] + rest, c) == a
    ensures UpTo(a, c) == a
    decreases |a|
  {
    if a == "" {
      assert a + [c] + rest == [c] + rest;
    } else {
      assert (a + [c] + rest)[1..] == a[1..] + [c] + rest;
      assert a[0] in a;
      UpToExact(a[1..], c, rest);
    }
  }

  datatype Loaded = Skipped | Loaded(s: Setting)

  /** One line as loaded: it ends at its first NUL or newline; lines without both separators are skipped. */
  function LoadLine(line: string): Loaded {
    var text := UpTo(UpTo(line, '\0'), '\n');
    var path := UpTo(text, '|');
    if |path| == |text| then Skipped
    else
      var rest := text[|path| + 1..];
      var key := UpTo(rest, '=');
      if |key| == |rest| then Skipped
      else
        Loaded(Setting(Unescaped(path, 4095), Unescaped(key, 255), Unescaped(rest[|key| + 1..], 8191)))
  }

  const LineRoom: nat := 8191

  /** One read of the C library's line reader: through the newline, at most the room there is. */
  function ReadLine(text: string, room: nat): (r: string)
    ensures |r| <= |text| && (text != "" && room > 0 ==> r != "")
  {
    if text == "" || room == 0 then ""
    else if text[0] == '\n' then "\n"
    else [text[0]] + ReadLine(text[1..], room - 1)
  }

  function LoadFile(text: string): seq<Setting>
    decreases |text|
  {
    if text == "" then []
    else
      var line := ReadLine(text, LineRoom);
      var rest := LoadFile(text[|line|..]);
      match LoadLine(line)
      case Skipped => rest
      case Loaded(s) => [s] + rest
  }

  // ---- the round trip ----

  predicate Clean(s: string) {
    '\0' !in s
  }

  predicate CleanSetting(s: Setting) {
    Clean(s.path) && Clean(s.key) && Clean(s.value)
  }

  lemma {:induction false} EscapedIsSafe(s: string)
    requires Clean(s)
    ensures forall c :: c in Escaped(s) ==> c != '|' && c != '=' && c != '\n' && c != '\r' && c != '\0'
    decreases |s|
  {
    if s != "" {
      assert s[0] in s;
      assert Clean(s[1..]);
      EscapedIsSafe(s[1..]);
    }
  }

  lemma {:induction false} ReadLineExact(line: string, rest: string, room: nat)
    requires '\n' !in line && |line| < room
    ensures ReadLine(line + "\n" + rest, room) == line + "\n"
    decreases |line|
  {
    if line == "" {
      assert line + "\n" + rest == "\n" + rest;
    } else {
      assert line[0] in line;
      assert (line + "\n" + rest)[1..] == line[1..] + "\n" + rest;
      ReadLineExact(line[1..], rest, room - 1);
    }
  }

  /** What comes back: each part cut by the smaller of its two buffers. */
  function Survives(s: Setting): Setting {
    Setting(Clip(s.path[..Kept(s.path, 0, 8192)], 4095),
            Clip(s.key[..Kept(s.key, 0, 1024)], 255),
            Clip(s.value[..Kept(s.value, 0, 8192)], 8191))
  }

  lemma StoredIsSafe(s: string, room: nat)
    requires Clean(s)
    ensures forall c :: c in Stored(s, room) ==> c != '|' && c != '=' && c != '\n' && c != '\0'
    ensures forall n :: Unescaped(Stored(s, room), n) == Clip(s[..Kept(s, 0, room)], n)
  {
    hide Escaped;
    var part := s[..Kept(s, 0, room)];
    assert Clean(part);
    EscapedIsSafe(part);
    forall n ensures Unescaped(Escaped(part), n) == Clip(part, n) {
      UnescapeUndoes(part, n);
    }
  }

  /** A written line splits at its own separators, whatever the parts contain. */
  lemma LineLoads(s: Setting)
    requires CleanSetting(s)
    ensures '\n' !in LineOf(s)
    ensures LoadLine(LineOf(s) + "\n") == Loaded(Survives(s))
  {
    hide Stored, Unescaped, Clip, Kept;
    StoredIsSafe(s.path, 8192);
    StoredIsSafe(s.key, 1024);
    StoredIsSafe(s.value, 8192);
    var path, key, value := Stored(s.path, 8192), Stored(s.key, 1024), Stored(s.value, 8192);
    var line := LineOf(s);
    assert '\0' !in line + "\n";
    UpToExact(line + "\n", '\0', "");
    UpToExact(line, '\n', "");
    assert line + "\n" + "" == line + "\n";
    SplitExact(path, key, value);
  }

  lemma SplitExact(path: string, key: string, value: string)
    requires '|' !in path && '=' !in key
    ensures var line := path + "|" + key + "=" + value;
            UpTo(line, '|') == path && |path| < |line|
            && UpTo(line[|path| + 1..], '=') == key && |key| < |line[|path| + 1..]|
            && line[|path| + 1..][|key| + 1..] == value
  {
    var line := path + "|" + key + "=" + value;
    var rest := key + "=" + value;
    assert line == path + "|" + rest;
    UpToExact(path, '|', rest);
    assert line[|path| + 1..] == rest;
    UpToExact(key, '=', value);
  }

  function All(settings: seq<Setting>): seq<Setting> {
    seq(|settings|, i requires 0 <= i < |settings| => Survives(settings[i]))
  }

  /** Loading a saved file yields, setting by setting, what survives the buffers. */
  lemma {:induction false} FileLoads(settings: seq<Setting>)
    requires forall s :: s in settings ==> CleanSetting(s) && |LineOf(s)| < LineRoom
    ensures LoadFile(FileOf(settings)) == All(settings)
    decreases |settings|
  {
    hide LineOf, LoadLine, Survives, CleanSetting;
    if settings != [] {
      var s, rest := settings[0], FileOf(settings[1..]);
      assert s in settings;
      LineLoads(s);
      ReadLineExact(LineOf(s), rest, LineRoom);
      FileLoads(settings[1..]);
      var file := FileOf(settings);
      assert file == LineOf(s) + "\n" + rest;
      assert file[|LineOf(s) + "\n"|..] == rest;
      AllSplit(settings);
    }
  }

  lemma AllSplit(settings: seq<Setting>)
    requires settings != []
    ensures All(settings) == [Survives(settings[0])] + All(settings[1..])
  {
    hide Survives;
  }

  predicate Fits(s: Setting) {
    |s.path| <= 4095 && |Escaped(s.path)| < 8192
    && |s.key| <= 255 && |Escaped(s.key)| < 1024
    && |s.value| <= 8191 && |Escaped(s.value)| < 8192
  }

  lemma SurvivesWhole(s: Setting)
    ensures Survives(s) == s <==> Fits(s)
  {
    hide Kept, Escaped;
    KeptAll(s.path, 8192);
    KeptAll(s.key, 1024);
    KeptAll(s.value, 8192);
    ClipWhole(s.path, 8192, 4095);
    ClipWhole(s.key, 1024, 255);
    ClipWhole(s.value, 8192, 8191);
  }

  lemma ClipWhole(s: string, room: nat, n: nat)
    ensures Clip(s[..Kept(s, 0, room)], n) == s <==> Kept(s, 0, room) == |s| && |s| <= n
  {
    assert Kept(s, 0, room) == |s| ==> s[..Kept(s, 0, room)] == s;
  }

  /** Settings that fit their buffers and their line come back as they were, whatever characters they hold. */
  lemma SavedSettingsComeBack(settings: seq<Setting>)
    requires forall s :: s in settings ==> CleanSetting(s) && |LineOf(s)| < LineRoom
    ensures LoadFile(FileOf(settings)) == settings <==> forall s :: s in settings ==> Fits(s)
  {
    FileLoads(settings);
    forall i | 0 <= i < |settings| ensures Survives(settings[i]) == settings[i] <==> Fits(settings[i]) {
      SurvivesWhole(settings[i]);
    }
    hide Survives, Fits;
    assert |All(settings)| == |settings|;
    assert forall i :: 0 <= i < |settings| ==> All(settings)[i] == Survives(settings[i]);
    assert (forall i :: 0 <= i < |settings| ==> Fits(settings[i])) ==> All(settings) == settings;
    if All(settings) == settings {
      forall i | 0 <= i < |settings| ensures Fits(settings[i]) {
        assert All(settings)[i] == settings[i];
      }
    }
  }

  /** The format on disk: five characters become a backslash and a letter, every other stands for itself. */
  lemma FormatLetters()
    ensures EscapeChar('\\') == "\\\\" && EscapeChar('|') == "\\c" && EscapeChar('=') == "\\e"
    ensures EscapeChar('\n') == "\\n" && EscapeChar('\r') == "\\r"
    ensures forall c :: c != '\\' && c != '|' && c != '=' && c != '\n' && c != '\r' ==> EscapeChar(c) == [c]
  {
  }
}
