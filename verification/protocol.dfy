/**
  The line protocol towards the console: framing of incoming command lines,
  the C-string view of a command buffer, and the outgoing STATUS, EVENT and
  NEW_PASS lines.  Both versions of the alarm print the same lines.
 */
module Protocol {
  import opened Common
  import Decimal

  // ---------------------------------------------------------------------
  // Incoming commands
  // ---------------------------------------------------------------------

  predicate IsBlank(c: char) {
    c == ' ' || c == '\r'
  }

  /** Skips the leading spaces and carriage returns of a command. */
  function Trim(s: seq<Octet>): (t: seq<Octet>)
    ensures |t| <= |s| && t == s[|s| - |t|..]
    ensures forall i :: 0 <= i < |s| - |t| ==> IsBlank(s[i])
    ensures |t| == 0 || !IsBlank(t[0])
  {
    if |s| > 0 && IsBlank(s[0]) then Trim(s[1..]) else s
  }

  /** The C string a buffer holds: everything before its first NUL. */
  function CText(s: seq<Octet>): (t: seq<Octet>)
    ensures t <= s
    ensures forall i :: 0 <= i < |t| ==> t[i] != '\0'
    ensures |t| < |s| ==> s[|t|] == '\0'
  {
    if |s| == 0 || s[0] == '\0' then [] else [s[0]] + CText(s[1..])
  }

  /** `buf[i]`; positions past the end of the supplied buffer read as NUL. */
  function At(buf: seq<Octet>, i: nat): Octet {
    if i < |buf| then buf[i] else '\0'
  }

  /** `strncmp(text, p, |p|) == 0` for a pattern `p` without NUL. */
  predicate StartsWith(text: seq<char>, p: seq<char>) {
    |p| <= |text| && text[..|p|] == p
  }

  /** Maximum number of bytes `leerComando` stores from one line. */
  const LINE_MAX: nat := 31

  datatype Read = Read(cmd: Option<seq<Octet>>, rest: seq<Octet>)

  /** Index of the first '\n' of `s` among its first `k` bytes, else how many of them there are. */
  function LineLength(s: seq<Octet>, k: nat): (n: nat)
    ensures n <= |s| && n <= k
    ensures forall i :: 0 <= i < n ==> s[i] != '\n'
    ensures n < |s| && n < k ==> s[n] == '\n'
  {
    if k == 0 || |s| == 0 || s[0] == '\n' then 0
    else 1 + LineLength(s[1..], k - 1)
  }

  /**
    `GestorComunicacion::leerComando` over the bytes already waiting on the
    port: `readBytesUntil('\n', buffer, 31)` stores the bytes before the first
    newline (at most 31, consuming the newline only when it stops on one);
    an empty line yields no command; the command handed on has its leading
    blanks skipped.
   */
  function LeerComando(avail: seq<Octet>): (r: Read)
    ensures |avail| == 0 ==> r == Read(None, avail)
    ensures |avail| > 0 ==> |r.rest| < |avail|
    ensures |r.rest| <= |avail| && r.rest == avail[|avail| - |r.rest|..]
    ensures r.cmd.Some? ==>
      && 0 < LineLength(avail, LINE_MAX)
      && r.cmd.value == Trim(avail[..LineLength(avail, LINE_MAX)])
    ensures |avail| > 0 ==> (r.cmd.Some? <==> 0 < LineLength(avail, LINE_MAX))
    ensures var n := LineLength(avail, LINE_MAX);
      |avail| > 0 ==> r.rest == (if n < |avail| && n < LINE_MAX then avail[n + 1..] else avail[n..])
  {
    if |avail| == 0 then Read(None, avail)
    else
      var n := LineLength(avail, LINE_MAX);
      var consumed := if n < |avail| && n < LINE_MAX then n + 1 else n;
      assert 0 < consumed <= |avail|;
      var rest := avail[consumed..];
      assert |avail| - |rest| == consumed;
      Read(if n > 0 then Some(Trim(avail[..n])) else None, rest)
  }

  /** A command handed on is at most 31 bytes long and holds no newline. */
  lemma CommandBounded(avail: seq<Octet>)
    ensures var r := LeerComando(avail);
      r.cmd.Some? ==> |r.cmd.value| <= LINE_MAX && forall i :: 0 <= i < |r.cmd.value| ==> r.cmd.value[i] != '\n'
  {
    var r := LeerComando(avail);
    if r.cmd.Some? {
      var n := LineLength(avail, LINE_MAX);
      var line := avail[..n];
      var c := r.cmd.value;
      forall i | 0 <= i < |c| ensures c[i] != '\n' {
        assert c[i] == line[|line| - |c| + i];
      }
    }
  }

  /** A line shorter than the buffer, ended by a newline, is read back as that line with its blanks skipped. */
  lemma ReadLine(line: seq<Octet>, more: seq<Octet>)
    requires 0 < |line| < LINE_MAX && '\n' !in line
    ensures LeerComando(line + "\n" + more) == Read(Some(Trim(line)), more)
  {
    var tail: seq<Octet> := ['\n'] + more;
    var avail := line + tail;
    assert line + "\n" + more == avail;
    LineLengthStopsAtNewline(line, tail, LINE_MAX);
    assert avail[..|line|] == line;
    assert avail[|line| + 1..] == more;
  }

  lemma {:induction false} LineLengthStopsAtNewline(line: seq<Octet>, tail: seq<Octet>, k: nat)
    requires |line| < k && '\n' !in line
    requires |tail| > 0 && tail[0] == '\n'
    ensures LineLength(line + tail, k) == |line|
    decreases |line|
  {
    if |line| > 0 {
      assert (line + tail)[1..] == line[1..] + tail;
      LineLengthStopsAtNewline(line[1..], tail, k - 1);
    } else {
      assert line + tail == tail;
    }
  }

  // ---------------------------------------------------------------------
  // Outgoing lines
  // ---------------------------------------------------------------------

  /** What a STATUS line reports. */
  datatype StatusInfo = StatusInfo(armed: bool, triggered: bool, autoOn: bool, minutes: nat)

  function Choice(b: bool, yes: string, no: string): string {
    if b then yes else no
  }

  /** The text of a STATUS line (`Serial.println` adds CR LF). */
  function FormatStatus(i: StatusInfo): string {
    "STATUS:" + (Choice(i.armed, "Activa", "Inactiva")
    + ("," + (Choice(i.triggered, "Disparada", "No disparada")
    + ("," + (Choice(i.autoOn, "Autoactivacion ON", "Autoactivacion OFF")
    + ("," + Decimal.ToDecimal(i.minutes)))))))
  }

  /** The STATUS line `enviarEstado` prints for a threshold of `umbral` ms. */
  function EnviarEstado(armed: bool, triggered: bool, autoOn: bool, umbral: U32): (line: string)
    ensures ParseStatus(line) == Some(StatusInfo(armed, triggered, autoOn, umbral / 60000))
  {
    var i := StatusInfo(armed, triggered, autoOn, umbral / 60000);
    ParseFormatStatus(i);
    FormatStatus(i)
  }

  /** The text of an EVENT line. */
  function EventLine(name: string): string {
    "EVENT:HARDWARE:" + name
  }

  /** The text of a NEW_PASS line. */
  function NewPassLine(code: Code): string {
    "NEW_PASS:" + code
  }

  // ---------------------------------------------------------------------
  // Reading a STATUS line back, as the console does
  // ---------------------------------------------------------------------

  function Strip(p: string, s: string): Option<string> {
    if StartsWith(s, p) then Some(s[|p|..]) else None
  }

  /** Which of two spellings `s` starts with, and what follows it. */
  function ParseChoice(yes: string, no: string, s: string): Option<(bool, string)> {
    match Strip(yes, s)
    case Some(t) => Some((true, t))
    case None =>
      match Strip(no, s)
      case Some(t) => Some((false, t))
      case None => None
  }

  /** A comma, then one of two spellings. */
  function ParseField(yes: string, no: string, s: string): Option<(bool, string)> {
    match Strip(",", s)
    case None => None
    case Some(t) => ParseChoice(yes, no, t)
  }

  function ParseMinutes(s: string): Option<nat> {
    match Strip(",", s)
    case None => None
    case Some(t) => if 0 < |t| && Decimal.AllDigits(t) then Some(Decimal.Value(t)) else None
  }

  function ParseStatus(line: string): Option<StatusInfo> {
    match Strip("STATUS:", line)
    case None => None
    case Some(t0) =>
      match ParseChoice("Activa", "Inactiva", t0)
      case None => None
      case Some((a, t1)) =>
        match ParseField("Disparada", "No disparada", t1)
        case None => None
        case Some((d, t2)) =>
          match ParseField("Autoactivacion ON", "Autoactivacion OFF", t2)
          case None => None
          case Some((o, t3)) =>
            match ParseMinutes(t3)
            case None => None
            case Some(m) => Some(StatusInfo(a, d, o, m))
  }

  lemma StripPrefix(p: string, s: string)
    ensures Strip(p, p + s) == Some(s)
  {
    assert (p + s)[..|p|] == p;
    assert (p + s)[|p|..] == s;
  }

  /** Two spellings that differ at position `k` are told apart whatever follows them. */
  lemma ParseChoiceOf(b: bool, yes: string, no: string, s: string, k: nat)
    requires k < |yes| && k < |no| && yes[k] != no[k]
    ensures ParseChoice(yes, no, Choice(b, yes, no) + s) == Some((b, s))
  {
    StripPrefix(yes, s);
    StripPrefix(no, s);
  }

  lemma ParseFieldOf(b: bool, yes: string, no: string, s: string, k: nat)
    requires k < |yes| && k < |no| && yes[k] != no[k]
    ensures ParseField(yes, no, "," + (Choice(b, yes, no) + s)) == Some((b, s))
  {
    StripPrefix(",", Choice(b, yes, no) + s);
    ParseChoiceOf(b, yes, no, s, k);
  }

  /** Every STATUS line the alarm prints reads back as the values it reports. */
  lemma ParseFormatStatus(i: StatusInfo)
    ensures ParseStatus(FormatStatus(i)) == Some(i)
  {
    var t3 := "," + Decimal.ToDecimal(i.minutes);
    var t2 := "," + (Choice(i.autoOn, "Autoactivacion ON", "Autoactivacion OFF") + t3);
    var t1 := "," + (Choice(i.triggered, "Disparada", "No disparada") + t2);
    var t0 := Choice(i.armed, "Activa", "Inactiva") + t1;
    StripPrefix("STATUS:", t0);
    ParseChoiceOf(i.armed, "Activa", "Inactiva", t1, 0);
    ParseFieldOf(i.triggered, "Disparada", "No disparada", t2, 0);
    ParseFieldOf(i.autoOn, "Autoactivacion ON", "Autoactivacion OFF", t3, 16);
    StripPrefix(",", Decimal.ToDecimal(i.minutes));
  }
}
