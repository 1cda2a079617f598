/** Printer and parser of the generated native-host launcher script. */
module Launcher {
  import opened Wrappers
  import opened Shell

  const MAX_INSTALLATION_FILE_BYTES: nat := 16_384
  const SHEBANG: string := "#!/bin/sh"
  const LAUNCHER_MARKER: string := "# tabgrant-native-host-launcher-v1:"

  /** The two paths of a launcher. The schema's constant `version: 1` carries no information. */
  datatype NativeHostLauncher = NativeHostLauncher(nodePath: string, nativeHostPath: string)

  /** A non-empty absolute path without NUL, carriage return or newline. */
  predicate ValidPath(path: string) {
    path != [] && path[0] == '/' && '\0' !in path && '\r' !in path && '\n' !in path
  }

  predicate ValidLauncher(launcher: NativeHostLauncher) {
    ValidPath(launcher.nodePath) && ValidPath(launcher.nativeHostPath)
  }

  predicate Base64Url(c: char) {
    'A' <= c <= 'Z' || 'a' <= c <= 'z' || '0' <= c <= '9' || c == '-' || c == '_'
  }

  /**
   * JSON text in unpadded base64url is abstract. `decode` covers the canonical-encoding check, UTF-8
   * decoding, `JSON.parse` and the shape of the object; the path rules of the schema are below.
   */
  datatype MetadataCodec = MetadataCodec(encode: NativeHostLauncher -> string, decode: string -> Option<NativeHostLauncher>)

  ghost predicate Faithful(codec: MetadataCodec) {
    forall launcher: NativeHostLauncher ::
      && codec.decode(codec.encode(launcher)) == Some(launcher)
      && codec.encode(launcher) != []
      && (forall i | 0 <= i < |codec.encode(launcher)| :: Base64Url(codec.encode(launcher)[i]))
  }

  /** The size of a text in UTF-8. */
  function Utf8Bytes(text: string): nat {
    if text == [] then 0
    else
      var code := text[0] as int;
      (if code < 0x80 then 1 else if code < 0x800 then 2 else if code < 0x1_0000 then 3 else 4) + Utf8Bytes(text[1..])
  }

  function ExecLine(launcher: NativeHostLauncher): string {
    "exec " + QuoteShellWord(launcher.nodePath) + " " + QuoteShellWord(launcher.nativeHostPath) + " \"$@\""
  }

  function Render(codec: MetadataCodec, launcher: NativeHostLauncher): string {
    JoinLines([SHEBANG, LAUNCHER_MARKER + codec.encode(launcher), ExecLine(launcher), ""])
  }

  function JoinLines(lines: seq<string>): string
    requires lines != []
  {
    if |lines| == 1 then lines[0] else lines[0] + "\n" + JoinLines(lines[1..])
  }

  function SplitLines(text: string): (lines: seq<string>)
    ensures lines != []
  {
    if text == [] then [""]
    else
      var rest := SplitLines(text[1..]);
      if text[0] == '\n' then [""] + rest else [[text[0]] + rest[0]] + rest[1..]
  }

  function Parse(codec: MetadataCodec, contents: string): Option<NativeHostLauncher> {
    if Utf8Bytes(contents) > MAX_INSTALLATION_FILE_BYTES then None
    else
      var lines := SplitLines(contents);
      if |lines| != 4 || lines[0] != SHEBANG || lines[3] != "" then None
      else if !(LAUNCHER_MARKER <= lines[1]) then None
      else
        var encoded := lines[1][|LAUNCHER_MARKER|..];
        if encoded == [] || exists i | 0 <= i < |encoded| :: !Base64Url(encoded[i]) then None
        else
          match codec.decode(encoded)
          case None => None
          case Some(launcher) =>
            if ValidLauncher(launcher) && Render(codec, launcher) == contents then Some(launcher) else None
  }

  /** Splitting undoes joining when no line holds a newline of its own. */
  lemma {:induction false} SplitJoined(lines: seq<string>)
    requires lines != []
    requires forall i | 0 <= i < |lines| :: '\n' !in lines[i]
    ensures SplitLines(JoinLines(lines)) == lines
    decreases |lines|
  {
    if |lines| == 1 {
      SplitLine(lines[0]);
    } else {
      SplitJoined(lines[1..]);
      SplitFirst(lines[0], JoinLines(lines[1..]));
      assert lines[0] + "\n" + JoinLines(lines[1..]) == lines[0] + ("\n" + JoinLines(lines[1..]));
    }
  }

  lemma {:induction false} SplitLine(line: string)
    requires '\n' !in line
    ensures SplitLines(line) == [line]
  {
    if line != [] {
      SplitLine(line[1..]);
      assert [line[0]] + line[1..] == line;
    }
  }

  lemma {:induction false} SplitFirst(line: string, rest: string)
    requires '\n' !in line
    ensures SplitLines(line + ("\n" + rest)) == [line] + SplitLines(rest)
  {
    if line == [] {
      assert line + ("\n" + rest) == "\n" + rest;
      assert ("\n" + rest)[1..] == rest;
    } else {
      SplitFirst(line[1..], rest);
      assert (line + ("\n" + rest))[1..] == line[1..] + ("\n" + rest);
      assert [line[0]] + line[1..] == line;
    }
  }

  lemma {:induction false} QuotingAddsNoNewline(value: string)
    requires '\n' !in value
    ensures '\n' !in ReplaceQuotes(value) && '\n' !in QuoteShellWord(value)
  {
    if value != [] {
      QuotingAddsNoNewline(value[1..]);
    }
  }

  /** A rendered launcher has exactly the four lines it was built from. */
  lemma RenderedLines(codec: MetadataCodec, launcher: NativeHostLauncher)
    requires Faithful(codec) && ValidLauncher(launcher)
    ensures SplitLines(Render(codec, launcher)) ==
            [SHEBANG, LAUNCHER_MARKER + codec.encode(launcher), ExecLine(launcher), ""]
  {
    QuotingAddsNoNewline(launcher.nodePath);
    QuotingAddsNoNewline(launcher.nativeHostPath);
    var lines := [SHEBANG, LAUNCHER_MARKER + codec.encode(launcher), ExecLine(launcher), ""];
    assert '\n' !in codec.encode(launcher);
    SplitJoined(lines);
  }

  /**
   * Printer and parser undo each other: a text parses to a launcher exactly when the launcher obeys
   * the schema and the text is its rendering within the size limit.
   */
  lemma ParseIsInverse(codec: MetadataCodec, contents: string, launcher: NativeHostLauncher)
    requires Faithful(codec)
    ensures Parse(codec, contents) == Some(launcher) <==>
            && ValidLauncher(launcher)
            && contents == Render(codec, launcher)
            && Utf8Bytes(contents) <= MAX_INSTALLATION_FILE_BYTES
  {
    if ValidLauncher(launcher) && contents == Render(codec, launcher) {
      RenderedLines(codec, launcher);
      var lines := SplitLines(contents);
      assert lines[1][|LAUNCHER_MARKER|..] == codec.encode(launcher);
    }
  }

  /** A quoted word followed by a blank is one field in front of whatever the rest of the line holds. */
  lemma QuotedField(value: string, tail: string)
    ensures Fields(QuoteShellWord(value) + (" " + tail), Bare, None) == Emit(Some(Literals(value)), Fields(tail, Bare, None))
  {
    QuotedReadsBack(value, " " + tail);
    BlankEndsField(tail, Literals(value));
  }

  lemma ExecField(tail: string)
    ensures Fields("exec" + (" " + tail), Bare, None) == Emit(Some(Literals("exec")), Fields(tail, Bare, None))
  {
    var line := "exec" + (" " + tail);
    assert line == ['e'] + ("xec" + (" " + tail));
    FirstLetter('e', "xec" + (" " + tail));
    PlainWord("exec", " " + tail, []);
    var empty: Field := [];
    assert empty + Literals("exec") == Literals("exec");
    BlankEndsField(tail, Literals("exec"));
  }

  /** The fields a POSIX shell passes to `exec`, for every pattern of quotes in the paths. */
  lemma ExecLineFields(launcher: NativeHostLauncher)
    ensures Fields(ExecLine(launcher), Bare, None) ==
            Some([Literals("exec"), Literals(launcher.nodePath), Literals(launcher.nativeHostPath), [AllArguments]])
  {
    var last := "\"$@\"";
    var host := QuoteShellWord(launcher.nativeHostPath) + (" " + last);
    var node := QuoteShellWord(launcher.nodePath) + (" " + host);
    assert ExecLine(launcher) == "exec" + (" " + node);
    ExecField(node);
    QuotedField(launcher.nodePath, host);
    QuotedField(launcher.nativeHostPath, last);
    LastFields();
    var exec, first, second := Literals("exec"), Literals(launcher.nodePath), Literals(launcher.nativeHostPath);
    assert [second] + [[AllArguments]] == [second, [AllArguments]];
    assert [first] + [second, [AllArguments]] == [first, second, [AllArguments]];
    assert [exec] + [first, second, [AllArguments]] == [exec, first, second, [AllArguments]];
  }

  /** A letter outside quotes starts a word as if the word had been opened empty. */
  lemma FirstLetter(c: char, tail: string)
    requires 'a' <= c <= 'z'
    ensures Fields([c] + tail, Bare, None) == Fields([c] + tail, Bare, Some([]))
  {
  }

  lemma LastFields()
    ensures Fields("\"$@\"", Bare, None) == Some([[AllArguments]])
  {
    var line := "\"$@\"";
    assert line[1..] == "$@\"";
    assert "$@\""[1..] == "@\"";
    assert "@\""[1..] == "\"";
    var none: seq<Field> := [];
    assert [[AllArguments]] + none == [[AllArguments]];
    var empty: Field := [];
    assert empty + [AllArguments] == [AllArguments];
    calc {
      Fields(line, Bare, None);
      Fields("$@\"", InDouble, Some(empty));
      Fields("\"", InDouble, Some([AllArguments]));
      Fields("", Bare, Some([AllArguments]));
    }
  }

  lemma {:induction false} PlainWord(word: string, tail: string, field: Field)
    requires forall i | 0 <= i < |word| :: 'a' <= word[i] <= 'z'
    ensures Fields(word + tail, Bare, Some(field)) == Fields(tail, Bare, Some(field + Literals(word)))
  {
    if word == [] {
      assert word + tail == tail;
      assert field + Literals(word) == field;
    } else {
      assert (word + tail)[1..] == word[1..] + tail;
      PlainWord(word[1..], tail, field + [Literal(word[0])]);
      assert (field + [Literal(word[0])]) + Literals(word[1..]) == field + Literals(word);
    }
  }

  /**
   * Whatever text the uninstaller accepts as a launcher, running it starts exactly the recorded
   * Node binary on exactly the recorded entry file and forwards all arguments.
   */
  lemma AcceptedLauncherRuns(codec: MetadataCodec, contents: string)
    requires Faithful(codec)
    requires Parse(codec, contents).Some?
    ensures var launcher := Parse(codec, contents).value;
            Fields(SplitLines(contents)[2], Bare, None) ==
            Some([Literals("exec"), Literals(launcher.nodePath), Literals(launcher.nativeHostPath), [AllArguments]])
  {
    var launcher := Parse(codec, contents).value;
    ParseIsInverse(codec, contents, launcher);
    RenderedLines(codec, launcher);
    ExecLineFields(launcher);
  }

  datatype WriteError = InvalidLauncher | LauncherTooLarge

  /** The contents that `writeNativeHostLauncherCreateOnly` publishes: always text that parses back. */
  function LauncherContents(codec: MetadataCodec, nodePath: string, nativeHostPath: string): (contents: Result<string, WriteError>)
    ensures Faithful(codec) && contents.Ok? ==> Parse(codec, contents.value) == Some(NativeHostLauncher(nodePath, nativeHostPath))
  {
    var launcher := NativeHostLauncher(nodePath, nativeHostPath);
    if !ValidLauncher(launcher) then Err(InvalidLauncher)
    else
      var contents := Render(codec, launcher);
      if Utf8Bytes(contents) > MAX_INSTALLATION_FILE_BYTES then Err(LauncherTooLarge)
      else
        assert Faithful(codec) ==> Parse(codec, contents) == Some(launcher) by {
          if Faithful(codec) {
            ParseIsInverse(codec, contents, launcher);
          }
        }
        Ok(contents)
  }

  // -------------------------------------------------- the accepted texts, spelled out

  /** An absolute path that stays on one line. */
  predicate OneLinePath(path: string) {
    |path| > 0 && path[0] == '/' && forall i | 0 <= i < |path| :: path[i] !in {'\0', '\r', '\n'}
  }

  /** The bytes of one character in UTF-8, as RFC 3629 lays them out. */
  function Utf8(c: char): (bytes: seq<int>)
    ensures forall i | 0 <= i < |bytes| :: 0 <= bytes[i] < 0xf8
  {
    var code := c as int;
    if code <= 0x7f then [code]
    else if code <= 0x7ff then [0xc0 + code / 0x40, 0x80 + code % 0x40]
    else if code <= 0xffff then [0xe0 + code / 0x1000, 0x80 + code / 0x40 % 0x40, 0x80 + code % 0x40]
    else [0xf0 + code / 0x4_0000, 0x80 + code / 0x1000 % 0x40, 0x80 + code / 0x40 % 0x40, 0x80 + code % 0x40]
  }

  function Utf8Text(text: string): seq<int> {
    if text == [] then [] else Utf8(text[0]) + Utf8Text(text[1..])
  }

  /** The size is the length of the text's UTF-8 encoding. */
  lemma {:induction false} SizeIsUtf8(text: string)
    ensures Utf8Bytes(text) == |Utf8Text(text)|
  {
    if text != [] {
      SizeIsUtf8(text[1..]);
    }
  }

  lemma {:induction false} NoneOfThem(path: string)
    ensures OneLinePath(path) <==> ValidPath(path)
  {
  }

  /**
   * The texts that parse, line by line: a shebang, the marker with the encoded paths, one line that executes
   * the two quoted paths with all arguments, and nothing after it; for absolute one-line paths, and within
   * 16 384 bytes of UTF-8.
   */
  lemma ParsedText(codec: MetadataCodec, contents: string, launcher: NativeHostLauncher)
    requires Faithful(codec)
    ensures Parse(codec, contents) == Some(launcher) <==>
              && OneLinePath(launcher.nodePath) && OneLinePath(launcher.nativeHostPath)
              && contents == "#!/bin/sh\n" + ("# tabgrant-native-host-launcher-v1:" + codec.encode(launcher) + "\n"
                             + ("exec " + QuoteShellWord(launcher.nodePath) + " " + QuoteShellWord(launcher.nativeHostPath) + " \"$@\"" + "\n"))
              && |Utf8Text(contents)| <= 16_384
  {
    ParseIsInverse(codec, contents, launcher);
    SizeIsUtf8(contents);
    NoneOfThem(launcher.nodePath);
    NoneOfThem(launcher.nativeHostPath);
    RenderedText(codec, launcher);
  }

  lemma RenderedText(codec: MetadataCodec, launcher: NativeHostLauncher)
    ensures Render(codec, launcher) ==
            "#!/bin/sh\n" + ("# tabgrant-native-host-launcher-v1:" + codec.encode(launcher) + "\n"
            + ("exec " + QuoteShellWord(launcher.nodePath) + " " + QuoteShellWord(launcher.nativeHostPath) + " \"$@\"" + "\n"))
  {
    var marked, exec := LAUNCHER_MARKER + codec.encode(launcher), ExecLine(launcher);
    assert JoinLines([""]) == "";
    assert [exec, ""][1..] == [""] && [marked, exec, ""][1..] == [exec, ""] && [SHEBANG, marked, exec, ""][1..] == [marked, exec, ""];
    assert JoinLines([exec, ""]) == exec + "\n" + "" == exec + "\n";
    assert JoinLines([marked, exec, ""]) == marked + "\n" + (exec + "\n");
    assert Render(codec, launcher) == SHEBANG + "\n" + (marked + "\n" + (exec + "\n"));
  }

  /** The codes of the 64 characters of base64url, RFC 4648, section 5. */
  predicate InAlphabet(code: int) {
    65 <= code <= 90 || 97 <= code <= 122 || 48 <= code <= 57 || code == 45 || code == 95
  }

  /** Accepted metadata consists of these characters, of at least one. */
  lemma MetadataCharacters(codec: MetadataCodec, contents: string)
    requires Parse(codec, contents).Some?
    ensures |SplitLines(contents)| == 4 && LAUNCHER_MARKER <= SplitLines(contents)[1]
    ensures var encoded := SplitLines(contents)[1][|LAUNCHER_MARKER|..];
            encoded != [] && forall i | 0 <= i < |encoded| :: InAlphabet(encoded[i] as int)
  {
    forall c: char ensures Base64Url(c) <==> InAlphabet(c as int) {
      AlphabetExactly(c);
    }
    hide Base64Url, InAlphabet, Render, SplitLines;
  }

  lemma AlphabetExactly(c: char)
    ensures Base64Url(c) <==> InAlphabet(c as int)
  {
  }

  /** What is published is the rendering; what is not is refused for the paths or for the size, in this order. */
  lemma PublishedExactly(codec: MetadataCodec, nodePath: string, nativeHostPath: string)
    ensures var text := Render(codec, NativeHostLauncher(nodePath, nativeHostPath));
            LauncherContents(codec, nodePath, nativeHostPath) ==
            if !OneLinePath(nodePath) || !OneLinePath(nativeHostPath) then Err(InvalidLauncher)
            else if |Utf8Text(text)| > 16_384 then Err(LauncherTooLarge)
            else Ok(text)
  {
    SizeIsUtf8(Render(codec, NativeHostLauncher(nodePath, nativeHostPath)));
    NoneOfThem(nodePath);
    NoneOfThem(nativeHostPath);
  }
}
