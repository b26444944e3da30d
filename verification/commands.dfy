/**
 * `serialEvent`: a line read from the serial port is trimmed, then either
 * names one of the three maneuvers the port accepts ("start", "stop",
 * "backward") or is read as "<servo id> <angle>" and written through the gate.
 *
 * The conversion of a field to an integer (Arduino's `String::toInt`) is a
 * parameter `toInt`; its behaviour is assumed only where a lemma says so.
 */
module Commands {

  import opened Wrappers
  import opened Servos
  import opened Fields
  import opened Ramp
  import opened Maneuvers

  /** Whitespace as the C library's `isspace` sees it. */
  predicate IsSpace(c: char) {
    c == ' ' || c == '\t' || c == '\n' || c == '\r' || c as int == 11 || c as int == 12
  }

  /** The line with leading whitespace removed. */
  function TrimStart(s: string): (r: string)
    ensures |r| <= |s| && r == s[|s| - |r|..]
    ensures forall k :: 0 <= k < |s| - |r| ==> IsSpace(s[k])
    ensures |r| > 0 ==> !IsSpace(r[0])
    decreases |s|
  {
    if |s| > 0 && IsSpace(s[0]) then
      var r := TrimStart(s[1..]);
      assert forall k :: 1 <= k < |s| ==> s[k] == s[1..][k - 1];
      r
    else
      s
  }

  /** The line with trailing whitespace removed. */
  function TrimEnd(s: string): (r: string)
    ensures |r| <= |s| && r == s[..|r|]
    ensures forall k :: |r| <= k < |s| ==> IsSpace(s[k])
    ensures |r| > 0 ==> !IsSpace(r[|r| - 1])
    decreases |s|
  {
    if |s| > 0 && IsSpace(s[|s| - 1]) then
      var r := TrimEnd(s[..|s| - 1]);
      assert forall k :: 0 <= k < |s| - 1 ==> s[k] == s[..|s| - 1][k];
      r
    else
      s
  }

  /** `r` is `s` with the whitespace before position `i` and after `r` cut off. */
  ghost predicate Padded(s: string, r: string, i: nat) {
    && i + |r| <= |s| && r == s[i..i + |r|]
    && (forall k :: 0 <= k < i ==> IsSpace(s[k]))
    && (forall k :: i + |r| <= k < |s| ==> IsSpace(s[k]))
  }

  /** `String::trim`: whitespace removed from both ends, and nothing else. */
  function Trim(s: string): (r: string)
    ensures exists i :: Padded(s, r, i)
    ensures |r| > 0 ==> !IsSpace(r[0]) && !IsSpace(r[|r| - 1])
  {
    var t := TrimStart(s);
    var r := TrimEnd(t);
    TrimPadded(s);
    r
  }

  /** Trimming the start and then the end cuts only whitespace off either side. */
  lemma TrimPadded(s: string)
    ensures Padded(s, TrimEnd(TrimStart(s)), |s| - |TrimStart(s)|)
  {
    TrimStartPadded(s);
    PaddedEnd(s, TrimStart(s), |s| - |TrimStart(s)|);
  }

  /** Trimming the end of a whitespace-cut slice leaves a whitespace-cut slice starting at the same place. */
  lemma PaddedEnd(s: string, t: string, i: nat)
    requires Padded(s, t, i)
    ensures Padded(s, TrimEnd(t), i)
  {
    TrimEndPadded(t);
    PaddedTrans(s, t, TrimEnd(t), i, 0);
  }

  /** Trimming the start removes only the whitespace in front. */
  lemma TrimStartPadded(s: string)
    ensures Padded(s, TrimStart(s), |s| - |TrimStart(s)|)
  {
  }

  /** Trimming the end removes only the whitespace behind. */
  lemma TrimEndPadded(t: string)
    ensures Padded(t, TrimEnd(t), 0)
  {
  }

  /** Cutting whitespace off twice is cutting whitespace off once. */
  lemma PaddedTrans(s: string, t: string, r: string, i: nat, j: nat)
    requires Padded(s, t, i) && Padded(t, r, j)
    ensures Padded(s, r, i + j)
  {
    forall k | 0 <= k < |r| ensures r[k] == s[i + j + k] {
      assert r[k] == t[j + k];
    }
    forall k | i <= k < i + j ensures IsSpace(s[k]) {
      assert s[k] == t[k - i];
    }
    forall k | i + j + |r| <= k < i + |t| ensures IsSpace(s[k]) {
      assert s[k] == t[k - i];
    }
  }

  /** Leading whitespace before text that starts with a non-space is all `TrimStart` removes. */
  lemma {:induction false} TrimStartSkips(pre: string, x: string)
    requires forall k :: 0 <= k < |pre| ==> IsSpace(pre[k])
    requires |x| > 0 ==> !IsSpace(x[0])
    ensures TrimStart(pre + x) == x
    decreases |pre|
  {
    if |pre| > 0 {
      assert (pre + x)[1..] == pre[1..] + x;
      TrimStartSkips(pre[1..], x);
    } else {
      assert pre + x == x;
    }
  }

  /** Trailing whitespace after text that ends with a non-space is all `TrimEnd` removes. */
  lemma {:induction false} TrimEndSkips(x: string, post: string)
    requires forall k :: 0 <= k < |post| ==> IsSpace(post[k])
    requires |x| > 0 ==> !IsSpace(x[|x| - 1])
    ensures TrimEnd(x + post) == x
    decreases |post|
  {
    if |post| > 0 {
      assert (x + post)[..|x + post| - 1] == x + post[..|post| - 1];
      TrimEndSkips(x, post[..|post| - 1]);
    } else {
      assert x + post == x;
    }
  }

  /** Trimming text padded with whitespace on both sides gives the text back, when it neither starts nor ends with whitespace. */
  lemma TrimPadding(pre: string, x: string, post: string)
    requires forall k :: 0 <= k < |pre| ==> IsSpace(pre[k])
    requires forall k :: 0 <= k < |post| ==> IsSpace(post[k])
    requires |x| > 0 && !IsSpace(x[0]) && !IsSpace(x[|x| - 1])
    ensures Trim(pre + x + post) == x
  {
    assert pre + x + post == pre + (x + post);
    assert (x + post)[0] == x[0];
    TrimStartSkips(pre, x + post);
    TrimEndSkips(x, post);
  }

  /** Trimming a trimmed line changes nothing. */
  lemma TrimIdempotent(s: string)
    ensures Trim(Trim(s)) == Trim(s)
  {
    var r := Trim(s);
    assert TrimStart(r) == r;
    assert TrimEnd(r) == r;
  }

  /** What a trimmed line asks for. */
  datatype Command = Start | Stop | Backward | SetServo(id: int, angle: int)

  /**
   * The text a C string comparison sees: everything before the first NUL
   * character. Arduino's `String ==` compares with `strcmp`, so a line is a
   * keyword when this part of it is.
   */
  function CText(s: string): (r: string)
    ensures |r| <= |s| && r == s[..|r|]
    ensures '\0' !in r
    ensures |r| < |s| ==> s[|r|] == '\0'
    decreases |s|
  {
    if |s| == 0 || s[0] == '\0' then [] else [s[0]] + CText(s[1..])
  }

  /** A line without NUL characters is compared whole. */
  lemma CTextPlain(s: string)
    requires '\0' !in s
    ensures CText(s) == s
  {
    assert forall i :: 0 <= i < |s| ==> s[i] != '\0';
  }

  /**
   * A line matches a NUL-free keyword exactly when it is the keyword, or the
   * keyword followed by a NUL character and anything after it.
   */
  lemma CTextIs(line: string, kw: string)
    requires '\0' !in kw
    ensures CText(line) == kw <==> line == kw || (|kw| < |line| && line[..|kw|] == kw && line[|kw|] == '\0')
  {
    var r := CText(line);
    if line == kw {
      CTextPlain(line);
    } else if |kw| < |line| && line[..|kw|] == kw && line[|kw|] == '\0' {
      assert forall i :: 0 <= i < |r| ==> r[i] == line[i] && r[i] != '\0';
      assert forall i :: 0 <= i < |kw| ==> line[i] == kw[i] && kw[i] != '\0';
      assert r == line[..|kw|];
    }
  }

  /** The decision chain of `serialEvent` on a trimmed line, comparing as `strcmp` does. */
  function Parse(line: string, toInt: string -> int): (c: Command)
    ensures c == Start <==> CText(line) == "start"
    ensures c == Stop <==> CText(line) == "stop"
    ensures c == Backward <==> CText(line) == "backward"
  {
    var text := CText(line);
    if text == "start" then Start
    else if text == "stop" then Stop
    else if text == "backward" then Backward
    else SetServo(toInt(GetValue(line, ' ', 0)), toInt(GetValue(line, ' ', 1)))
  }

  /** The steps a command runs: a maneuver, or one gated write. */
  function CommandSteps(c: Command): seq<Step> {
    match c
    case Start => StartSteps()
    case Stop => StopSteps()
    case Backward => BackwardSteps()
    case SetServo(id, angle) => [Set(id, angle)]
  }

  /** One line read from the serial port, from state `s`; `None` when the maneuver it runs never ends. */
  function SerialEvent(s: State, raw: string, toInt: string -> int): Option<State> {
    Execute(s, CommandSteps(Parse(Trim(raw), toInt)))
  }

  /** A line that is not a keyword writes at most one channel, and writes it exactly when the gate accepts. */
  lemma WriteCommand(s: State, raw: string, toInt: string -> int)
    requires CText(Trim(raw)) !in {"start", "stop", "backward"}
    ensures var line := Trim(raw);
            var id := toInt(GetValue(line, ' ', 0));
            var angle := toInt(GetValue(line, ' ', 1));
            SerialEvent(s, raw, toInt) == Some(SetAngle(s, id, angle).state)
  {
    var line := Trim(raw);
    var id := toInt(GetValue(line, ' ', 0));
    var angle := toInt(GetValue(line, ' ', 1));
    assert CommandSteps(Parse(line, toInt)) == [Set(id, angle)];
    SingleWrite(s, id, angle);
  }

  /**
   * A line that trims to "<a> <b>", two space-free fields, and is no keyword,
   * writes angle `toInt(b)` to channel `toInt(a)` through the gate.
   */
  lemma TwoFieldLine(s: State, raw: string, a: string, b: string, toInt: string -> int)
    requires ' ' !in a && ' ' !in b && |b| >= 1
    requires Trim(raw) == a + " " + b
    requires CText(a + " " + b) !in {"start", "stop", "backward"}
    ensures SerialEvent(s, raw, toInt) == Some(SetAngle(s, toInt(a), toInt(b)).state)
  {
    var line := a + " " + b;
    assert GetValue(line, ' ', 0) == a && GetValue(line, ' ', 1) == b by {
      JoinPair(a, b, ' ');
      GetValueJoin([a, b], ' ', 0);
      GetValueJoin([a, b], ' ', 1);
    }
    WriteCommand(s, raw, toInt);
  }

  /** `TwoFieldLine` for a line without NUL characters, which is compared whole. */
  lemma PlainTwoFieldLine(s: State, raw: string, a: string, b: string, toInt: string -> int)
    requires ' ' !in a && ' ' !in b && |b| >= 1
    requires '\0' !in a && '\0' !in b
    requires Trim(raw) == a + " " + b
    requires a + " " + b !in {"start", "stop", "backward"}
    ensures SerialEvent(s, raw, toInt) == Some(SetAngle(s, toInt(a), toInt(b)).state)
  {
    CTextPlain(a + " " + b);
    TwoFieldLine(s, raw, a, b, toInt);
  }

  /** Two pieces joined are the first, the separator, then the second. */
  lemma JoinPair(a: string, b: string, sep: char)
    ensures Join([a, b], sep) == a + [sep] + b
  {
    assert [a, b][..1] == [a];
  }

  /** A line reading "5 30" moves segment 5 to 30 degrees, with `toInt` reading decimal numerals. */
  lemma FiveThirty(s: State, raw: string, toInt: string -> int)
    requires Trim(raw) == "5 30"
    requires toInt("5") == 5 && toInt("30") == 30
    ensures SerialEvent(s, raw, toInt) == Some(s[5 := 30])
  {
    SegmentFiveAtThirty(s);
    assert Trim(raw) == "5" + " " + "30";
    PlainTwoFieldLine(s, raw, "5", "30", toInt);
  }

  /** The gate accepts 30 degrees for segment 5. */
  lemma SegmentFiveAtThirty(s: State)
    ensures SetAngle(s, 5, 30).state == s[5 := 30]
  {
    assert InLimits(5, 30);
  }

  /**
   * A line that is no command is not ignored: "banana" has no second field,
   * both conversions give 0, and body joint 0 is driven to 0 degrees.
   */
  lemma GarbageWritesChannelZero(s: State, raw: string, toInt: string -> int)
    requires Trim(raw) == "banana"
    requires toInt("banana") == 0 && toInt("") == 0
    ensures SerialEvent(s, raw, toInt) == Some(s[0 := 0])
  {
    BodyZeroAtZero(s);
    OneWordLine(s, raw, toInt);
  }

  /** The gate accepts 0 degrees for body joint 0. */
  lemma BodyZeroAtZero(s: State)
    ensures SetAngle(s, 0, 0).state == s[0 := 0]
  {
    assert InLimits(0, 0);
  }

  /** A line that trims to one word, with no NUL and no keyword, writes `toInt("")` to channel `toInt` of that word. */
  lemma OneWordLine(s: State, raw: string, toInt: string -> int)
    requires var line := Trim(raw);
             && |line| >= 1 && ' ' !in line && '\0' !in line
             && line !in {"start", "stop", "backward"}
    ensures SerialEvent(s, raw, toInt) == Some(SetAngle(s, toInt(Trim(raw)), toInt("")).state)
  {
    var line := Trim(raw);
    CTextPlain(line);
    OneField(line);
    WriteCommand(s, raw, toInt);
  }

  /** A non-empty line without spaces is its own field 0 and has no field 1. */
  lemma OneField(line: string)
    requires |line| >= 1 && ' ' !in line
    ensures GetValue(line, ' ', 0) == line && GetValue(line, ' ', 1) == ""
  {
    assert Join([line], ' ') == line;
    GetValueJoin([line], ' ', 0);
    GetValueJoin([line], ' ', 1);
  }

  /** A line reading "start", up to any NUL character, stands the robot up from any state. */
  lemma StartCommand(s: State, raw: string, toInt: string -> int)
    requires CText(Trim(raw)) == "start"
    ensures SerialEvent(s, raw, toInt) == Some(Standing)
  {
    StartFromAny(s);
  }

  /** A line reading "backward", up to any NUL character, walks the robot back from any state. */
  lemma BackwardCommand(s: State, raw: string, toInt: string -> int)
    requires CText(Trim(raw)) == "backward"
    ensures SerialEvent(s, raw, toInt) == Some(Stance(s, [20, 20, 80, 55]))
  {
    BackwardFromAny(s);
  }

  /** A line reading "stop", up to any NUL character, returns once its segment ramp terminates, and then leaves the robot at rest. */
  lemma StopCommand(s: State, raw: string, toInt: string -> int)
    requires CText(Trim(raw)) == "stop"
    ensures SerialEvent(s, raw, toInt).Some? <==> RampFeasible(s, StopTargets(), 1)
    ensures RampFeasible(s, StopTargets(), 1) ==> SerialEvent(s, raw, toInt) == Some(Home)
  {
    StopEffect(s);
  }

  /** The line "start\0x" is the start command: the comparison stops at the NUL character. */
  lemma NulEndsKeyword(s: State, raw: string, toInt: string -> int)
    requires raw == "start\0x"
    ensures SerialEvent(s, raw, toInt) == Some(Standing)
  {
    NulLineTrimmed(raw);
    NulLineIsStart(raw);
    StartCommand(s, raw, toInt);
  }

  /** "start\0x" has no whitespace at either end, so trimming keeps it. */
  lemma NulLineTrimmed(raw: string)
    requires raw == "start\0x"
    ensures Trim(raw) == raw
  {
    assert "" + raw + "" == raw;
    TrimPadding("", raw, "");
  }

  /** "start\0x" compares equal to "start". */
  lemma NulLineIsStart(raw: string)
    requires raw == "start\0x"
    ensures CText(raw) == "start"
  {
    assert raw[..5] == "start" by {
      forall j | 0 <= j < 5 ensures raw[..5][j] == "start"[j] {
        assert raw[..5][j] == raw[j];
      }
    }
    CTextIs(raw, "start");
  }

  /** The padded line " stop\r\n" a terminal sends trims to the stop keyword. */
  lemma PaddedStop(raw: string)
    requires raw == " stop\r\n"
    ensures Trim(raw) == "stop"
  {
    var pre, word, post := raw[..1], raw[1..5], raw[5..];
    assert raw == pre + word + post;
    assert word == "stop" by {
      assert |word| == 4;
      forall j | 0 <= j < 4 ensures word[j] == "stop"[j] {
        assert word[j] == raw[j + 1];
      }
    }
    assert IsSpace(post[0]) && IsSpace(post[1]);
    TrimPadding(pre, word, post);
  }
}
