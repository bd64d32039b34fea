/** The broker's config file: the text it writes and the lines it reads (internal/cfg/configfile.go). */
module ConfigFile {
  import opened Wrappers
  import opened Text

  /** unicode.IsSpace. */
  predicate IsSpace(c: char) {
    || '\t' <= c <= '\r' || c == ' ' || c == '\U{85}' || c == '\U{A0}' || c == '\U{1680}'
    || '\U{2000}' <= c <= '\U{200A}' || c == '\U{2028}' || c == '\U{2029}' || c == '\U{202F}' || c == '\U{205F}'
    || c == '\U{3000}'
  }

  function TrimLeft(s: string): (r: string)
    ensures r != "" ==> !IsSpace(r[0]) && (s != "" && r[|r| - 1] == s[|s| - 1])
    ensures forall c | c in r :: c in s
  {
    if s != "" && IsSpace(s[0]) then TrimLeft(s[1..]) else s
  }

  function TrimRight(s: string): (r: string)
    ensures r != "" ==> !IsSpace(r[|r| - 1]) && (s != "" && r[0] == s[0])
    ensures forall c | c in r :: c in s
  {
    if s != "" && IsSpace(s[|s| - 1]) then TrimRight(s[..|s| - 1]) else s
  }

  function TrimSpace(s: string): (r: string)
    ensures Trimmed(r)
    ensures Trimmed(s) ==> r == s
    ensures forall c | c in r :: c in s
  {
    TrimRight(TrimLeft(s))
  }

  predicate Trimmed(s: string) {
    s != "" ==> !IsSpace(s[0]) && !IsSpace(s[|s| - 1])
  }

  function WithoutCR(line: string): string {
    if line != "" && line[|line| - 1] == '\r' then line[..|line| - 1] else line
  }

  function WithoutCRs(lines: seq<string>): (r: seq<string>)
    ensures |r| == |lines| && forall i | 0 <= i < |r| :: r[i] == WithoutCR(lines[i])
  {
    seq(|lines|, i requires 0 <= i < |lines| => WithoutCR(lines[i]))
  }

  /** The lines a bufio.Scanner yields: an empty last line is not one. */
  function ScannedLines(content: string): seq<string> {
    var parts := Split(content, '\n');
    var last := |parts| - 1;
    WithoutCRs(if parts[last] == "" then parts[..last] else parts)
  }

  datatype Settings = Settings(mode: string, adminSecret: string)

  /** What one scanned line does to the settings read so far. */
  function ApplyLine(cfg: Settings, text: string): Settings {
    var line := TrimSpace(text);
    if line == "" || line[0] == '#' then cfg
    else
      match Cut(line, "=")
      case None => cfg
      case Some((key, value)) =>
        if TrimSpace(key) == "MODE" then cfg.(mode := TrimSpace(value))
        else if TrimSpace(key) == "ADMIN_SECRET" then cfg.(adminSecret := TrimSpace(value))
        else cfg
  }

  function ApplyLines(cfg: Settings, lines: seq<string>): Settings
    decreases |lines|
  {
    if lines == [] then cfg else ApplyLines(ApplyLine(cfg, lines[0]), lines[1..])
  }

  function Parsed(content: string): Settings {
    ApplyLines(Settings("", ""), ScannedLines(content))
  }

  /** The scan loop over the content of a readable file. */
  method LoadConfig(content: string) returns (mode: string, adminSecret: string)
    ensures Settings(mode, adminSecret) == Parsed(content)
  {
    mode, adminSecret := "", "";
    var lines := ScannedLines(content);
    for i := 0 to |lines|
      invariant ApplyLines(Settings(mode, adminSecret), lines[i..]) == Parsed(content)
    {
      assert lines[i..][1..] == lines[i + 1..];
      var line := TrimSpace(lines[i]);
      if line == "" || line[0] == '#' {
        continue;
      }
      var cut := Cut(line, "=");
      if cut.None? {
        continue;
      }
      var (key, value) := cut.value;
      if TrimSpace(key) == "MODE" {
        mode := TrimSpace(value);
      } else if TrimSpace(key) == "ADMIN_SECRET" {
        adminSecret := TrimSpace(value);
      }
    }
  }

  /** The line gives this key this value: around its first "=", without the space around either, and is no comment. */
  ghost predicate Gives(text: string, key: string, value: string) {
    exists left, right :: GivenBy(text, left, right, key, value)
  }

  predicate GivenBy(text: string, left: string, right: string, key: string, value: string) {
    && TrimSpace(text) == left + "=" + right && '=' !in left && TrimSpace(text)[0] != '#'
    && TrimSpace(left) == key && TrimSpace(right) == value
  }

  ghost predicate GivesSome(text: string, key: string) {
    exists value :: Gives(text, key, value)
  }

  /** The key and value of a line that is no comment and has both. */
  function Assignment(text: string): Option<(string, string)> {
    var line := TrimSpace(text);
    if line == "" || line[0] == '#' then None
    else
      match Cut(line, "=")
      case None => None
      case Some((left, right)) => Some((TrimSpace(left), TrimSpace(right)))
  }

  lemma GivenIsAssigned(text: string, left: string, right: string, key: string, value: string)
    requires GivenBy(text, left, right, key, value)
    ensures Assignment(text) == Some((key, value))
  {
    CutChar(left, '=', right);
  }

  lemma AssignedIsGiven(text: string)
    requires Assignment(text).Some?
    ensures Gives(text, Assignment(text).value.0, Assignment(text).value.1)
  {
    var line := TrimSpace(text);
    CutParts(line, "=");
    CutCharExact(line, '=');
    var (left, right) := Cut(line, "=").value;
    assert GivenBy(text, left, right, TrimSpace(left), TrimSpace(right));
  }

  lemma GivesExactly(text: string, key: string)
    ensures forall v :: Gives(text, key, v) <==> Assignment(text) == Some((key, v))
    ensures GivesSome(text, key) <==> Assignment(text).Some? && Assignment(text).value.0 == key
  {
    forall v ensures Gives(text, key, v) <==> Assignment(text) == Some((key, v)) {
      if Gives(text, key, v) {
        var left, right :| GivenBy(text, left, right, key, v);
        GivenIsAssigned(text, left, right, key, v);
      }
      if Assignment(text) == Some((key, v)) {
        AssignedIsGiven(text);
      }
    }
    if Assignment(text).Some? && Assignment(text).value.0 == key {
      assert Gives(text, key, Assignment(text).value.1);
    }
  }

  lemma AppliesAssignment(cfg: Settings, text: string)
    ensures ApplyLine(cfg, text) ==
            match Assignment(text)
            case None => cfg
            case Some((key, value)) =>
              if key == "MODE" then cfg.(mode := value) else if key == "ADMIN_SECRET" then cfg.(adminSecret := value) else cfg
  {
  }

  /** What one line does to the settings. */
  lemma LineApplied(cfg: Settings, text: string)
    ensures if GivesSome(text, "MODE") then Gives(text, "MODE", ApplyLine(cfg, text).mode)
            else ApplyLine(cfg, text).mode == cfg.mode
    ensures if GivesSome(text, "ADMIN_SECRET") then Gives(text, "ADMIN_SECRET", ApplyLine(cfg, text).adminSecret)
            else ApplyLine(cfg, text).adminSecret == cfg.adminSecret
  {
    GivesExactly(text, "MODE");
    GivesExactly(text, "ADMIN_SECRET");
    AppliesAssignment(cfg, text);
  }

  /** The last of the lines that give the key a value gives it this one, or none gives it any and it keeps the old one. */
  ghost predicate LastGiven(lines: seq<string>, key: string, kept: string, value: string)
    decreases |lines|
  {
    if lines == [] then value == kept
    else
      var n := |lines| - 1;
      Gives(lines[n], key, value) || (!GivesSome(lines[n], key) && LastGiven(lines[..n], key, kept, value))
  }

  lemma {:induction false} ApplySnoc(cfg: Settings, lines: seq<string>, last: string)
    ensures ApplyLines(cfg, lines + [last]) == ApplyLine(ApplyLines(cfg, lines), last)
    decreases |lines|
  {
    if lines == [] {
      assert [last][1..] == [];
    } else {
      assert (lines + [last])[1..] == lines[1..] + [last];
      ApplySnoc(ApplyLine(cfg, lines[0]), lines[1..], last);
    }
  }

  lemma {:induction false} LinesApplied(cfg: Settings, lines: seq<string>)
    ensures LastGiven(lines, "MODE", cfg.mode, ApplyLines(cfg, lines).mode)
    ensures LastGiven(lines, "ADMIN_SECRET", cfg.adminSecret, ApplyLines(cfg, lines).adminSecret)
    decreases |lines|
  {
    if lines == [] {
    } else {
      var n := |lines| - 1;
      assert lines[..n] + [lines[n]] == lines;
      LinesApplied(cfg, lines[..n]);
      ApplySnoc(cfg, lines[..n], lines[n]);
      LineApplied(ApplyLines(cfg, lines[..n]), lines[n]);
    }
  }

  /** Each setting read is the one the last line for it gives, or empty if none does. */
  lemma LastLineWins(content: string)
    ensures LastGiven(ScannedLines(content), "MODE", "", Parsed(content).mode)
    ensures LastGiven(ScannedLines(content), "ADMIN_SECRET", "", Parsed(content).adminSecret)
  {
    LinesApplied(Settings("", ""), ScannedLines(content));
  }

  const TITLE: string := "# Broker Configuration"
  const GENERATED_BY: string := "# Generated by: awrit init --mode="
  const GENERATED_AT: string := "# Generated at: "
  const NL: string := "\n"

  /** The file written for a mode and a secret at a given time. */
  function Rendered(mode: string, stamp: string, secret: string): string {
    TITLE + NL + (GENERATED_BY + mode) + NL + (GENERATED_AT + stamp) + NL + NL
    + ("MODE=" + mode) + NL + ("ADMIN_SECRET=" + secret) + NL
  }

  function RenderedLines(mode: string, stamp: string, secret: string): seq<string> {
    [TITLE, GENERATED_BY + mode, GENERATED_AT + stamp, "", "MODE=" + mode, "ADMIN_SECRET=" + secret]
  }

  /** A value on one line, without space around it. */
  predicate Clean(value: string) {
    '\n' !in value && Trimmed(value)
  }

  /** Whatever the file holds, the values read from it are clean. */
  lemma {:induction false} LinesGiveCleanValues(cfg: Settings, lines: seq<string>)
    requires Clean(cfg.mode) && Clean(cfg.adminSecret) && FreeOf(lines, '\n')
    ensures Clean(ApplyLines(cfg, lines).mode) && Clean(ApplyLines(cfg, lines).adminSecret)
    decreases |lines|
  {
    if lines == [] {
    } else {
      LinesGiveCleanValues(ApplyLine(cfg, lines[0]), lines[1..]);
    }
  }

  lemma ParsedValuesClean(content: string)
    ensures Clean(Parsed(content).mode) && Clean(Parsed(content).adminSecret)
  {
    SplitPartsFree(content, '\n');
    LinesGiveCleanValues(Settings("", ""), ScannedLines(content));
  }

  /** A clean line after a newline is scanned as one more part. */
  lemma SplitLine(text: string, line: string)
    requires '\n' !in line
    ensures Split(text + NL + line, '\n') == Split(text, '\n') + [line]
  {
    SplitAcross(text, line, '\n');
    SplitFree(line, '\n');
  }

  lemma SixLinesSplit(a: string, b: string, c: string, d: string, e: string)
    requires FreeOf([a, b, c, d, e], '\n')
    ensures Split(a + NL + b + NL + c + NL + NL + d + NL + e + NL, '\n') == [a, b, c, "", d, e, ""]
  {
    var l := [a, b, c, d, e];
    assert l[0] == a && l[1] == b && l[2] == c && l[3] == d && l[4] == e;
    var t1 := a + NL + b;
    var t2 := t1 + NL + c;
    var t3 := t2 + NL;
    var t4 := t3 + NL + d;
    var t5 := t4 + NL + e;
    SplitFree(a, '\n');
    SplitLine(a, b);
    SplitLine(t1, c);
    SplitLine(t2, "");
    assert t2 + NL + "" == t3;
    SplitLine(t3, d);
    SplitLine(t4, e);
    SplitLine(t5, "");
    assert t5 + NL + "" == t5 + NL;
    assert [a] + [b] + [c] + [""] + [d] + [e] + [""] == [a, b, c, "", d, e, ""];
  }

  lemma RenderedScans(mode: string, stamp: string, secret: string)
    requires Clean(mode) && Clean(secret) && '\n' !in stamp
    ensures ScannedLines(Rendered(mode, stamp, secret)) == WithoutCRs(RenderedLines(mode, stamp, secret))
  {
    var l := RenderedLines(mode, stamp, secret);
    assert FreeOf([TITLE, l[1], l[2], l[4], l[5]], '\n');
    SixLinesSplit(TITLE, l[1], l[2], l[4], l[5]);
    var parts := Split(Rendered(mode, stamp, secret), '\n');
    assert parts == l + [""];
    assert parts[..6] == l;
  }

  lemma CommentIgnored(cfg: Settings, line: string)
    requires line != "" && line[0] == '#'
    ensures ApplyLine(cfg, WithoutCR(line)) == cfg
  {
    var text := WithoutCR(line);
    assert text[0] == '#';
    assert TrimLeft(text) == text;
  }

  lemma SettingCut(key: string, value: string)
    requires key != "" && Trimmed(key) && key[0] != '#' && '=' !in key && Clean(value)
    ensures WithoutCR(key + "=" + value) == key + "=" + value == TrimSpace(key + "=" + value)
    ensures Cut(key + "=" + value, "=") == Some((key, value))
    ensures TrimSpace(key) == key && TrimSpace(value) == value
  {
    var line := key + "=" + value;
    assert line[|line| - 1] == if value == "" then '=' else value[|value| - 1];
    assert Trimmed(line);
    CutChar(key, '=', value);
  }

  lemma ModeRead(cfg: Settings, value: string)
    requires Clean(value)
    ensures ApplyLine(cfg, WithoutCR("MODE=" + value)) == cfg.(mode := value)
  {
    var key := "MODE";
    assert key + "=" == "MODE=";
    SettingCut(key, value);
  }

  lemma SecretRead(cfg: Settings, value: string)
    requires Clean(value)
    ensures ApplyLine(cfg, WithoutCR("ADMIN_SECRET=" + value)) == cfg.(adminSecret := value)
  {
    var key := "ADMIN_SECRET";
    assert key + "=" == "ADMIN_SECRET=";
    SettingCut(key, value);
  }

  lemma BlankIgnored(cfg: Settings)
    ensures ApplyLine(cfg, WithoutCR("")) == cfg
  {
  }

  /** Three comments and a blank line leave the settings alone; two settings lines set them. */
  lemma CommentsThenSettings(start: Settings, l: seq<string>, mode: string, secret: string)
    requires |l| == 6 && l[3] == "" && l[4] == "MODE=" + mode && l[5] == "ADMIN_SECRET=" + secret
    requires forall i | 0 <= i < 3 :: l[i] != "" && l[i][0] == '#'
    requires Clean(mode) && Clean(secret)
    ensures ApplyLines(start, WithoutCRs(l)) == Settings(mode, secret)
  {
    var w := WithoutCRs(l);
    var half, done := start.(mode := mode), Settings(mode, secret);
    forall i | 0 <= i < 3 ensures ApplyLine(start, w[i]) == start {
      CommentIgnored(start, l[i]);
    }
    assert ApplyLine(start, w[3]) == start by { BlankIgnored(start); }
    assert ApplyLine(start, w[4]) == half by { ModeRead(start, mode); }
    assert ApplyLine(half, w[5]) == done by { SecretRead(half, secret); }
    SixLines(start, half, done, w);
  }

  lemma CleanRoundTrip(mode: string, stamp: string, secret: string)
    requires Clean(mode) && Clean(secret) && '\n' !in stamp
    ensures Parsed(Rendered(mode, stamp, secret)) == Settings(mode, secret)
  {
    var l := RenderedLines(mode, stamp, secret);
    RenderedScans(mode, stamp, secret);
    RenderedComments(mode, stamp, secret);
    CommentsThenSettings(Settings("", ""), l, mode, secret);
  }

  lemma RenderedComments(mode: string, stamp: string, secret: string)
    ensures var l := RenderedLines(mode, stamp, secret);
            forall i | 0 <= i < 3 :: l[i] != "" && l[i][0] == '#'
  {
  }

  lemma SixLines(start: Settings, half: Settings, done: Settings, l: seq<string>)
    requires |l| == 6
    requires forall i | 0 <= i < 4 :: ApplyLine(start, l[i]) == start
    requires ApplyLine(start, l[4]) == half && ApplyLine(half, l[5]) == done
    ensures ApplyLines(start, l) == done
  {
    assert ApplyLines(start, l) == ApplyLines(start, l[1..]);
    assert ApplyLines(start, l[1..]) == ApplyLines(start, l[2..]) by { assert l[1..][1..] == l[2..]; }
    assert ApplyLines(start, l[2..]) == ApplyLines(start, l[3..]) by { assert l[2..][1..] == l[3..]; }
    assert ApplyLines(start, l[3..]) == ApplyLines(start, l[4..]) by { assert l[3..][1..] == l[4..]; }
    assert ApplyLines(start, l[4..]) == ApplyLines(half, l[5..]) by { assert l[4..][1..] == l[5..]; }
    assert ApplyLines(half, l[5..]) == ApplyLines(done, []) by { assert l[5..][1..] == []; }
  }

  /** Reading back what was written gives the same values exactly when both are clean. */
  lemma RoundTripExactly(mode: string, stamp: string, secret: string)
    requires '\n' !in stamp
    ensures Parsed(Rendered(mode, stamp, secret)) == Settings(mode, secret) <==> Clean(mode) && Clean(secret)
  {
    if Clean(mode) && Clean(secret) {
      CleanRoundTrip(mode, stamp, secret);
    }
    ParsedValuesClean(Rendered(mode, stamp, secret));
  }
}
