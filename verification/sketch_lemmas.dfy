/**
  Properties of the sketch's engine: how serial commands are recognised,
  the arm/disarm entry, the change session and its lockout, the sensors and
  auto-arm, and an invariant every handler keeps.
 */
module SketchLemmas {
  import opened Common
  import Decimal
  import opened Protocol
  import opened Sketch

  // ---------------------------------------------------------------------
  // Serial commands
  // ---------------------------------------------------------------------

  predicate AllBlank(pad: seq<Octet>) {
    forall i :: 0 <= i < |pad| ==> IsBlank(pad[i])
  }

  /** Skipping the blanks in front of a command leaves exactly the command. */
  lemma {:induction false} TrimBlanks(pad: seq<Octet>, rest: seq<Octet>)
    requires AllBlank(pad)
    requires |rest| > 0 && !IsBlank(rest[0])
    ensures Trim(pad + rest) == rest
    decreases |pad|
  {
    if |pad| == 0 {
      assert pad + rest == rest;
    } else {
      assert (pad + rest)[1..] == pad[1..] + rest;
      TrimBlanks(pad[1..], rest);
    }
  }

  /** A C string with no NUL in front keeps it. */
  lemma {:induction false} CTextAppend(p: seq<Octet>, rest: seq<Octet>)
    requires forall i :: 0 <= i < |p| ==> p[i] != '\0'
    ensures CText(p + rest) == p + CText(rest)
    decreases |p|
  {
    if |p| == 0 {
      assert p + rest == rest;
    } else {
      assert (p + rest)[1..] == p[1..] + rest;
      CTextAppend(p[1..], rest);
      assert p == [p[0]] + p[1..];
    }
  }

  /**
    The command `"KEY:" + c`, after any blanks and whatever follows it (a CR
    of a CRLF line end, say), hands `c` to exactly one handler: the change
    session when one is open, else the password entry when one is open, else
    the top level; then the state is reported.
   */
  lemma KeyCommand(s: State, pad: seq<Octet>, c: Octet, rest: seq<Octet>, now: U32)
    requires AllBlank(pad)
    ensures var k := if s.change.open then ManejarCambioContrasena(s, c, now)
                     else if s.entry.open then ManejarContrasena(s, c, now)
                     else ManejarComando(s, c, now);
      ProcesarComandoSerial(s, pad + "KEY:" + [c] + rest, now) == Step(k.s, k.out + [EnviarEstadoSerial(k.s.alarm)])
  {
    KeyDispatch(s, pad, c, rest, now);
  }

  lemma KeyDispatch(s: State, pad: seq<Octet>, c: Octet, rest: seq<Octet>, now: U32)
    requires AllBlank(pad)
    ensures ProcesarComandoSerial(s, pad + "KEY:" + [c] + rest, now) == ProcesarTecla(s, c, now)
  {
    KeyText(pad, c, rest);
  }

  /** How `KEY:<c>` after blanks reads once trimmed. */
  lemma KeyText(pad: seq<Octet>, c: Octet, rest: seq<Octet>)
    requires AllBlank(pad)
    ensures var b := Trim(pad + "KEY:" + [c] + rest);
      && CText(b) != "GET_STATUS" && StartsWith(CText(b), "KEY:") && At(b, 4) == c
  {
    var b: seq<Octet> := "KEY:" + ([c] + rest);
    assert pad + "KEY:" + [c] + rest == pad + b;
    TrimBlanks(pad, b);
    CTextAppend("KEY:", [c] + rest);
    var t := CText(b);
    assert t[..4] == "KEY:";
    assert b[4] == c;
  }

  /** A command that is not KEY, after any blanks, is one of the settings commands. */
  lemma SettingsCommand(s: State, pad: seq<Octet>, b: seq<Octet>, now: U32)
    requires AllBlank(pad) && |b| >= 4 && b[0] == 'S'
    ensures ProcesarComandoSerial(s, pad + b, now) == Ajustar(s, b, CText(b))
  {
    SettingsText(pad, b);
    NotKey(s, pad + b, now);
  }

  /** A command starting with 'S', after blanks, trims to itself and is no KEY command. */
  lemma SettingsText(pad: seq<Octet>, b: seq<Octet>)
    requires AllBlank(pad) && |b| >= 4 && b[0] == 'S'
    ensures Trim(pad + b) == b && !StartsWith(CText(Trim(pad + b)), "KEY:")
  {
    TrimBlanks(pad, b);
    CTextHead(b);
  }

  lemma CTextHead(b: seq<Octet>)
    requires |b| >= 4 && b[0] == 'S'
    ensures !StartsWith(CText(b), "KEY:")
  {
    var t := CText(b);
    assert t == [b[0]] + CText(b[1..]);
    assert t[0] == 'S';
  }

  lemma NotKey(s: State, buf: seq<Octet>, now: U32)
    requires !StartsWith(CText(Trim(buf)), "KEY:")
    ensures ProcesarComandoSerial(s, buf, now) == Ajustar(s, Trim(buf), CText(Trim(buf)))
  {
  }

  /** GET_STATUS, after any blanks and up to the end of the C string, reports the state and changes nothing. */
  lemma GetStatusCommand(s: State, pad: seq<Octet>, tail: seq<Octet>, now: U32)
    requires AllBlank(pad)
    requires |tail| == 0 || tail[0] == '\0'
    ensures ProcesarComandoSerial(s, pad + "GET_STATUS" + tail, now) == Step(s, [EnviarEstadoSerial(s.alarm)])
  {
    GetStatusText(pad, tail);
  }

  lemma GetStatusText(pad: seq<Octet>, tail: seq<Octet>)
    requires AllBlank(pad)
    requires |tail| == 0 || tail[0] == '\0'
    ensures CText(Trim(pad + "GET_STATUS" + tail)) == "GET_STATUS"
  {
    var b: seq<Octet> := "GET_STATUS" + tail;
    assert pad + "GET_STATUS" + tail == pad + b;
    TrimBlanks(pad, b);
    CTextAppend("GET_STATUS", tail);
    assert CText(tail) == [];
    assert CText(b) == "GET_STATUS";
  }

  /** A command that is none of the five is ignored: nothing changes and nothing is sent. */
  lemma UnknownCommandIgnored(s: State, buf: seq<Octet>, now: U32)
    requires var t := CText(Trim(buf));
      && t != "GET_STATUS" && !StartsWith(t, "KEY:") && !StartsWith(t, "SET_AUTO:")
      && !StartsWith(t, "SET_TIME:") && !StartsWith(t, "SET_PASS:")
    ensures ProcesarComandoSerial(s, buf, now) == Step(s, [])
  {
    NotKey(s, buf, now);
  }

  /**
    SET_PASS with four characters replaces and persists the password
    exactly when they differ from it; the same password leaves everything
    as it was and sends nothing.
   */
  lemma SetPassCommand(s: State, pad: seq<Octet>, p: Code, rest: seq<Octet>, now: U32)
    requires AllBlank(pad)
    ensures var r := ProcesarComandoSerial(s, pad + "SET_PASS:" + p + rest, now);
      && (p != s.contrasena ==> r == Step(s.(contrasena := p), [SavePass(p), Event("CONTRASENA_ACTUALIZADA_DESDE_SOFTWARE")]))
      && (p == s.contrasena ==> r == Step(s, []))
  {
    var b: seq<Octet> := "SET_PASS:" + (p + rest);
    assert pad + "SET_PASS:" + p + rest == pad + b;
    SettingsCommand(s, pad, b, now);
    AjustarSetPass(s, p, rest);
  }

  lemma AjustarSetPass(s: State, p: Code, rest: seq<Octet>)
    ensures var b: seq<Octet> := "SET_PASS:" + (p + rest);
      var r := Ajustar(s, b, CText(b));
      && (p != s.contrasena ==> r == Step(s.(contrasena := p), [SavePass(p), Event("CONTRASENA_ACTUALIZADA_DESDE_SOFTWARE")]))
      && (p == s.contrasena ==> r == Step(s, []))
  {
    var b: seq<Octet> := "SET_PASS:" + (p + rest);
    CTextAppend("SET_PASS:", p + rest);
    var t := CText(b);
    assert t[..9] == "SET_PASS:";
    assert t != "GET_STATUS" by { assert t[0] == 'S' && t[1] == 'E'; }
    assert !StartsWith(t, "SET_AUTO:") by { assert t[4] == 'P'; }
    assert !StartsWith(t, "SET_TIME:") by { assert t[4] == 'P'; }
    assert PassArgument(b) == p;
  }

  /** A decimal number as command characters. */
  function Digits(n: nat): (d: seq<Octet>)
    ensures Decimal.AllDigits(d) && d == Decimal.ToDecimal(n)
    ensures forall i :: 0 <= i < |d| ==> d[i] != '\0'
  {
    var d := Decimal.ToDecimal(n);
    assert forall i :: 0 <= i < |d| ==> Decimal.IsDigit(d[i]);
    d
  }

  /** What may follow a number in a command: nothing, or text that does not start with a digit. */
  predicate EndsNumber(rest: seq<Octet>) {
    |rest| == 0 || !Decimal.IsDigit(rest[0])
  }

  /** A settings command with a decimal argument: its C string holds the name, the digits and what follows up to a NUL. */
  lemma NumericText(name: seq<Octet>, n: nat, rest: seq<Octet>)
    requires |name| == 9
    requires forall i :: 0 <= i < 9 ==> name[i] != '\0'
    ensures CText(name + Digits(n) + rest) == name + (Digits(n) + CText(rest))
    ensures (name + (Digits(n) + CText(rest)))[9..] == Digits(n) + CText(rest)
  {
    assert name + Digits(n) + rest == name + (Digits(n) + rest);
    CTextAppend(name, Digits(n) + rest);
    CTextAppend(Digits(n), rest);
  }

  /** `atoi` reads back the number, whatever non-digit text follows it. */
  lemma AtoiDigits(n: nat, rest: seq<Octet>)
    requires EndsNumber(rest)
    ensures Decimal.Atoi(Digits(n) + CText(rest)) == n
  {
    var t := CText(rest);
    assert |t| > 0 ==> t[0] == rest[0];
    Decimal.AtoiToDecimal(n, t);
  }

  lemma AjustarSetTime(s: State, m: nat, rest: seq<Octet>)
    ensures var b: seq<Octet> := "SET_TIME:" + Digits(m) + rest;
      Ajustar(s, b, CText(b)) == SetTime(s, Digits(m) + CText(rest))
  {
    var b: seq<Octet> := "SET_TIME:" + Digits(m) + rest;
    NumericText("SET_TIME:", m, rest);
    var t := CText(b);
    assert t[..9] == "SET_TIME:";
    assert t != "GET_STATUS" by { assert t[0] == 'S' && t[1] == 'E'; }
    assert !StartsWith(t, "SET_AUTO:") by { assert t[4] == 'T'; }
  }

  /**
    SET_TIME with `m` minutes, whatever non-digit text follows (a CR, say),
    sets the threshold to `m` minutes in 32-bit milliseconds, changes
    nothing else, and the STATUS line it sends reads back `m` whenever `m`
    minutes fit in 32 bits.
   */
  lemma SetTimeCommand(s: State, pad: seq<Octet>, m: nat, rest: seq<Octet>, now: U32)
    requires AllBlank(pad) && EndsNumber(rest)
    ensures var r := ProcesarComandoSerial(s, pad + "SET_TIME:" + Digits(m) + rest, now);
      && r.s == s.(alarm := s.alarm.(umbral := (m * MS_PER_MINUTE) % 0x1_0000_0000))
      && |r.out| == 1
      && (m * MS_PER_MINUTE < 0x1_0000_0000 ==>
            ParseStatus(SerialText(r.out[0])) == Some(StatusInfo(s.alarm.armed, s.alarm.triggered, s.alarm.autoOn, m)))
  {
    var b: seq<Octet> := "SET_TIME:" + Digits(m) + rest;
    assert pad + "SET_TIME:" + Digits(m) + rest == pad + b;
    SettingsCommand(s, pad, b, now);
    AjustarSetTime(s, m, rest);
    AtoiDigits(m, rest);
  }

  lemma AjustarSetAuto(s: State, n: nat, rest: seq<Octet>)
    ensures var b: seq<Octet> := "SET_AUTO:" + Digits(n) + rest;
      Ajustar(s, b, CText(b)) == SetAuto(s, Digits(n) + CText(rest))
  {
    var b: seq<Octet> := "SET_AUTO:" + Digits(n) + rest;
    NumericText("SET_AUTO:", n, rest);
    var t := CText(b);
    assert t[..9] == "SET_AUTO:";
    assert t != "GET_STATUS" by { assert t[0] == 'S' && t[1] == 'E'; }
  }

  /** SET_AUTO turns auto-arm on exactly for the argument 1, whatever non-digit text follows, and changes nothing else. */
  lemma SetAutoCommand(s: State, pad: seq<Octet>, n: nat, rest: seq<Octet>, now: U32)
    requires AllBlank(pad) && EndsNumber(rest)
    ensures var r := ProcesarComandoSerial(s, pad + "SET_AUTO:" + Digits(n) + rest, now);
      && r.s == s.(alarm := s.alarm.(autoOn := n == 1))
      && |r.out| == 2
      && r.out[0] == Event(if n == 1 then "AUTO_ACTIVACION_HABILITADA" else "AUTO_ACTIVACION_DESHABILITADA")
  {
    var b: seq<Octet> := "SET_AUTO:" + Digits(n) + rest;
    assert pad + "SET_AUTO:" + Digits(n) + rest == pad + b;
    SettingsCommand(s, pad, b, now);
    AjustarSetAuto(s, n, rest);
    AtoiDigits(n, rest);
  }

  // ---------------------------------------------------------------------
  // Arming and disarming with the password
  // ---------------------------------------------------------------------

  /** `manejarContrasena` called with the four characters of `c` in turn. */
  function EnterKeys(s: State, c: Code, now: U32): Step {
    var r0 := ManejarContrasena(s, c[0], now);
    var r1 := ManejarContrasena(r0.s, c[1], now);
    var r2 := ManejarContrasena(r1.s, c[2], now);
    var r3 := ManejarContrasena(r2.s, c[3], now);
    Step(r3.s, r0.out + r1.out + r2.out + r3.out)
  }

  /**
    Four digits typed into a fresh entry close it: the password arms for
    'A' and disarms otherwise, clearing the triggered flag and the
    failures; any other code counts one failure and leaves the alarm alone.
   */
  lemma EnterCode(s: State, c: Code, now: U32)
    requires s.entry.open && s.entry.cont == 0 && Decimal.AllDigits(c)
    ensures var r := EnterKeys(s, c, now);
      && !r.s.entry.open
      && r.s.change == s.change && r.s.lock == s.lock && r.s.contrasena == s.contrasena
      && (c == s.contrasena ==>
            r.s.alarm.armed == (s.entry.accion == 'A') && !r.s.alarm.triggered && r.s.entry.intentos == 0)
      && (c != s.contrasena ==>
            r.s.alarm == s.alarm
            && r.s.entry.intentos == (if s.entry.intentos + 1 >= MAX_INTENTOS then 0 else s.entry.intentos + 1))
  {
    assert Decimal.IsDigit(c[0]) && Decimal.IsDigit(c[1]) && Decimal.IsDigit(c[2]) && Decimal.IsDigit(c[3]);
    var r0 := ManejarContrasena(s, c[0], now);
    var r1 := ManejarContrasena(r0.s, c[1], now);
    var r2 := ManejarContrasena(r1.s, c[2], now);
    assert r2.s.entry.cont == 3 && r2.s.entry.open;
    var typed := Put(r2.s.entry.ingresado, 3, c[3]);
    assert typed == c;
  }

  /**
    The 10 s "blocked" message after the third wrong entry locks nothing:
    the next entry with the password is accepted.
   */
  lemma NormalLockoutIsOnlyAMessage(s: State, w: Code, c: Code, t1: U32, t2: U32)
    requires s.entry.open && s.entry.cont == 0 && s.entry.intentos == MAX_INTENTOS - 1
    requires Decimal.AllDigits(w) && w != s.contrasena
    requires Decimal.AllDigits(c) && c == s.contrasena
    ensures var r1 := EnterKeys(s, w, t1);
      var r2 := EnterKeys(SolicitarContrasena(r1.s, 'A').s, c, t2);
      && Event("SISTEMA_BLOQUEADO") in r1.out
      && r2.s.alarm.armed && r2.s.entry.intentos == 0
  {
    var r1 := EnterKeys(s, w, t1);
    EnterCode(s, w, t1);
    EnterWrongThird(s, w, t1);
    var s2 := SolicitarContrasena(r1.s, 'A').s;
    EnterCode(s2, c, t2);
  }

  /** The third wrong entry in a row sends SISTEMA_BLOQUEADO. */
  lemma EnterWrongThird(s: State, w: Code, now: U32)
    requires s.entry.open && s.entry.cont == 0 && s.entry.intentos == MAX_INTENTOS - 1
    requires Decimal.AllDigits(w) && w != s.contrasena
    ensures Event("SISTEMA_BLOQUEADO") in EnterKeys(s, w, now).out
  {
    assert Decimal.IsDigit(w[0]) && Decimal.IsDigit(w[1]) && Decimal.IsDigit(w[2]) && Decimal.IsDigit(w[3]);
    var r0 := ManejarContrasena(s, w[0], now);
    var r1 := ManejarContrasena(r0.s, w[1], now);
    var r2 := ManejarContrasena(r1.s, w[2], now);
    assert r2.s == s.(entry := s.entry.(ingresado := r2.s.entry.ingresado, cont := 3));
    assert r0.out == [] && r1.out == [] && r2.out == [];
    assert Put(r2.s.entry.ingresado, 3, w[3]) == w;
    var r3 := ManejarContrasena(r2.s, w[3], now);
    assert Event("SISTEMA_BLOQUEADO") in r3.out;
    assert r0.out + r1.out + r2.out + r3.out == r3.out;
  }

  // ---------------------------------------------------------------------
  // Changing the password
  // ---------------------------------------------------------------------

  /** `manejarCambioContrasena` called with the four characters of `c` in turn. */
  function ChangeKeys(s: State, c: Code, now: U32): Step {
    var r0 := ManejarCambioContrasena(s, c[0], now);
    var r1 := ManejarCambioContrasena(r0.s, c[1], now);
    var r2 := ManejarCambioContrasena(r1.s, c[2], now);
    var r3 := ManejarCambioContrasena(r2.s, c[3], now);
    Step(r3.s, r0.out + r1.out + r2.out + r3.out)
  }

  /** The current password, typed in phase 0, moves the session to phase 1. */
  lemma CurrentAccepted(s: State, c: Code, now: U32)
    requires s.change.open && s.change.fase == 0 && s.change.cont == 0
    requires Decimal.AllDigits(c) && c == s.contrasena
    ensures var r := ChangeKeys(s, c, now);
      && r.s == s.(change := ChangeSession(true, 1, 0, c, Blank, 0))
      && r.out == [Event("CONTRASENA_ACTUAL_VERIFICADA")]
  {
    assert Decimal.IsDigit(c[0]) && Decimal.IsDigit(c[1]) && Decimal.IsDigit(c[2]) && Decimal.IsDigit(c[3]);
    var r0 := ManejarCambioContrasena(s, c[0], now);
    var r1 := ManejarCambioContrasena(r0.s, c[1], now);
    var r2 := ManejarCambioContrasena(r1.s, c[2], now);
    assert r2.s == s.(change := s.change.(verif := r2.s.change.verif, cont := 3));
    assert Put(r2.s.change.verif, 3, c[3]) == c;
  }

  /** Any four digits typed in phase 1 become the password, are persisted and announced, and close the session. */
  lemma NewAccepted(s: State, n: Code, now: U32)
    requires s.change.open && s.change.fase == 1 && s.change.cont == 0
    requires Decimal.AllDigits(n)
    ensures var r := ChangeKeys(s, n, now);
      && r.s == s.(contrasena := n, change := Closed(0))
      && r.out == [SavePass(n), NewPass(n), Event("CONTRASENA_CAMBIADA_EXITOSAMENTE")]
  {
    assert Decimal.IsDigit(n[0]) && Decimal.IsDigit(n[1]) && Decimal.IsDigit(n[2]) && Decimal.IsDigit(n[3]);
    var r0 := ManejarCambioContrasena(s, n[0], now);
    var r1 := ManejarCambioContrasena(r0.s, n[1], now);
    var r2 := ManejarCambioContrasena(r1.s, n[2], now);
    assert r2.s == s.(change := s.change.(nueva := r2.s.change.nueva, cont := 3));
    assert Put(r2.s.change.nueva, 3, n[3]) == n;
  }

  /**
    The whole workflow from the top level: 'C', the current password, then
    the new one.  The password is replaced, persisted and announced, and
    nothing but the inactivity stamp, the password and the closed session
    differs from where it started.
   */
  lemma ChangeWorkflow(s: State, cur: Code, n: Code, t0: U32, t1: U32, t2: U32)
    requires !s.change.open && !s.entry.open && !s.lock.on
    requires Decimal.AllDigits(cur) && cur == s.contrasena && Decimal.AllDigits(n)
    ensures var r0 := RouteKey(s, 'C', t0);
      var r1 := ChangeKeys(r0.s, cur, t1);
      var r2 := ChangeKeys(r1.s, n, t2);
      && r2.s == s.(alarm := s.alarm.(ultimaDeteccion := t0), contrasena := n, change := Closed(0))
      && SavePass(n) in r2.out
  {
    var r0 := RouteKey(s, 'C', t0);
    CurrentAccepted(r0.s, cur, t1);
    var r1 := ChangeKeys(r0.s, cur, t1);
    NewAccepted(r1.s, n, t2);
  }

  /**
    A wrong current password counts one failure and clears the entry; the
    third sets the lockout stamped `now`, remembers the armed flag, forces
    the alarm armed and triggered, and closes the session.
   */
  lemma CurrentRejected(s: State, w: Code, now: U32)
    requires s.change.open && s.change.fase == 0 && s.change.cont == 0
    requires Decimal.AllDigits(w) && w != s.contrasena
    ensures var r := ChangeKeys(s, w, now);
      var k := s.change.intentos + 1;
      && r.s.contrasena == s.contrasena && r.s.entry == s.entry
      && (k < MAX_INTENTOS ==>
            r.s == s.(change := s.change.(intentos := k, cont := 0, verif := Blank))
            && r.out == [Event("VERIFICACION_FALLIDA_CAMBIO_PASS")])
      && (k >= MAX_INTENTOS ==>
            r.s == s.(alarm := s.alarm.(armed := true, triggered := true), lock := Lockout(true, now, s.alarm.armed),
                      change := Closed(k))
            && r.out[1] == Event("SISTEMA_BLOQUEADO_CAMBIO_PASS_ALARMA_ACTIVADA"))
  {
    assert Decimal.IsDigit(w[0]) && Decimal.IsDigit(w[1]) && Decimal.IsDigit(w[2]) && Decimal.IsDigit(w[3]);
    var r0 := ManejarCambioContrasena(s, w[0], now);
    var r1 := ManejarCambioContrasena(r0.s, w[1], now);
    var r2 := ManejarCambioContrasena(r1.s, w[2], now);
    assert r2.s == s.(change := s.change.(verif := r2.s.change.verif, cont := 3));
    assert r0.out == [] && r1.out == [] && r2.out == [];
    assert Put(r2.s.change.verif, 3, w[3]) == w;
  }

  /** `since + d` on the 32-bit clock. */
  function After(since: U32, d: nat): U32 {
    (since + d) % 0x1_0000_0000
  }

  lemma ElapsedAfter(since: U32, d: nat)
    requires d < 0x1_0000_0000
    ensures Elapsed(After(since, d), since) == d
  {
    if since + d >= 0x1_0000_0000 {
      assert After(since, d) == since + d - 0x1_0000_0000;
    }
  }

  /**
    The change lockout lasts exactly 30 s, across a wrap of the clock too;
    when it ends the alarm is armed as it was before the lockout, no longer
    triggered, and a new change session may start.
   */
  lemma LockoutEnds(s: State, d: nat)
    requires s.lock.on && d < 0x1_0000_0000
    ensures var r := VerificarCambioContrasena(s, After(s.lock.since, d));
      && (r.s.lock.on <==> d < LOCK_MS)
      && (d >= LOCK_MS ==>
            r.s.alarm.armed == s.lock.armedAntes && !r.s.alarm.triggered && r.s.change.intentos == 0
            && r.out[0] == Event("BLOQUEO_CAMBIO_PASS_FINALIZADO"))
      && (d < LOCK_MS ==> r.s == s)
  {
    ElapsedAfter(s.lock.since, d);
  }

  /**
    Three wrong current passwords in a row from a fresh series, then the
    lockout check 30 s or more after the third: the first two leave the
    session open and the alarm alone, the third forces the alarm armed and
    triggered under the lockout, and its end brings the alarm back to the
    armed flag it had before the session, untriggered, with the password
    unchanged.
   */
  lemma LockoutRoundTrip(s: State, w1: Code, w2: Code, w3: Code, t1: U32, t2: U32, t3: U32, d: nat)
    requires s.change.open && s.change.fase == 0 && s.change.cont == 0 && s.change.intentos == 0
    requires Decimal.AllDigits(w1) && w1 != s.contrasena
    requires Decimal.AllDigits(w2) && w2 != s.contrasena
    requires Decimal.AllDigits(w3) && w3 != s.contrasena
    requires LOCK_MS <= d < 0x1_0000_0000
    ensures var r1 := ChangeKeys(s, w1, t1);
      var r2 := ChangeKeys(r1.s, w2, t2);
      var r3 := ChangeKeys(r2.s, w3, t3);
      var r4 := VerificarCambioContrasena(r3.s, After(t3, d));
      && r1.s.change.open && r2.s.change.open && r2.s.alarm == s.alarm && r2.s.lock == s.lock
      && r3.s.alarm.armed && r3.s.alarm.triggered && r3.s.lock.on && !r3.s.change.open
      && r4.s.alarm == s.alarm.(triggered := false)
      && !r4.s.lock.on && r4.s.contrasena == s.contrasena
  {
    CurrentRejected(s, w1, t1);
    var r1 := ChangeKeys(s, w1, t1);
    CurrentRejected(r1.s, w2, t2);
    var r2 := ChangeKeys(r1.s, w2, t2);
    CurrentRejected(r2.s, w3, t3);
    var r3 := ChangeKeys(r2.s, w3, t3);
    LockoutEnds(r3.s, d);
  }

  /**
    While the change lockout runs, 'C' is refused but 'D' still asks for
    the password, and the password disarms the alarm the lockout forced on;
    the lockout itself keeps running.
   */
  lemma DisarmDuringLockout(s: State, c: Code, t0: U32, t1: U32)
    requires s.lock.on && !s.change.open && !s.entry.open && s.alarm.armed
    requires Decimal.AllDigits(c) && c == s.contrasena
    ensures !RouteKey(s, 'C', t0).s.change.open
    ensures var r0 := RouteKey(s, 'D', t0);
      var r1 := EnterKeys(r0.s, c, t1);
      && r0.s.entry.open
      && !r1.s.alarm.armed && !r1.s.alarm.triggered && r1.s.lock == s.lock
  {
    var r0 := RouteKey(s, 'D', t0);
    EnterCode(r0.s, c, t1);
  }

  // ---------------------------------------------------------------------
  // Sensors and auto-arm
  // ---------------------------------------------------------------------

  /**
    Once triggered, a further motion reading at any later instant only
    refreshes the inactivity stamp: no flag changes and nothing is sent.
   */
  lemma MotionIdempotent(s: State, now: U32, now2: U32)
    ensures var r1 := RevisarSensores(s, true, now);
      var r2 := RevisarSensores(r1.s, true, now2);
      && r1.s.alarm.triggered && r2.out == []
      && r2.s == r1.s.(alarm := r1.s.alarm.(ultimaDeteccion := now2))
  {
  }

  /** Auto-arm fires at most once: right after it, it is not due again. */
  lemma AutoArmOnce(s: State, now: U32, later: U32)
    ensures var r1 := VerificarAutoActivacion(s, now);
      AutoArmDue(s, now) ==> VerificarAutoActivacion(r1.s, later) == Step(r1.s, [])
  {
  }

  /** Auto-arm does not wait for an open change session to end. */
  lemma AutoArmDuringChange(s: State, now: U32)
    requires s.change.open && AutoArmDue(s, now)
    ensures var r := VerificarAutoActivacion(s, now);
      r.s.alarm.armed && r.s.change == s.change
  {
  }

  // ---------------------------------------------------------------------
  // What every handler keeps
  // ---------------------------------------------------------------------

  /**
    At most one of the entry and the change session is open; an open one
    has fewer than four digits; the entry failures stay below three; an
    open session is in phase 0 or 1, below three failures, and cannot
    coexist with the change lockout; a closed session is at rest.
   */
  predicate Inv(s: State) {
    && !(s.entry.open && s.change.open)
    && (s.entry.open ==> s.entry.cont < 4)
    && s.entry.intentos < MAX_INTENTOS
    && (s.change.open ==> s.change.cont < 4 && s.change.fase <= 1 && s.change.intentos < MAX_INTENTOS && !s.lock.on)
    && (!s.change.open ==> s.change.cont == 0 && s.change.fase == 0)
  }

  /** One call of the loop's handlers, with the inputs it would read. */
  datatype Stimulus =
    | Sensors(motion: bool)       // revisarSensores
    | AutoArm                     // verificarAutoActivacion
    | LockCheck                   // verificarCambioContrasena
    | Keypad(tecla: Octet)        // a key from the keypad, assumed routed as KEY: routes it
    | Command(buf: seq<Octet>)    // procesarComandoSerial

  function Apply(s: State, st: Stimulus, now: U32): Step {
    match st
    case Sensors(m) => RevisarSensores(s, m, now)
    case AutoArm => VerificarAutoActivacion(s, now)
    case LockCheck => VerificarCambioContrasena(s, now)
    case Keypad(k) => RouteKey(s, k, now)
    case Command(b) => ProcesarComandoSerial(s, b, now)
  }

  function Run(s: State, sts: seq<(Stimulus, U32)>): State
    decreases |sts|
  {
    if |sts| == 0 then s else Run(Apply(s, sts[0].0, sts[0].1).s, sts[1..])
  }

  lemma ChangeKeyKeepsInv(s: State, k: Octet, now: U32)
    requires Inv(s) && s.change.open
    ensures Inv(ManejarCambioContrasena(s, k, now).s)
  {
  }

  lemma EntryKeyKeepsInv(s: State, k: Octet, now: U32)
    requires Inv(s) && s.entry.open
    ensures Inv(ManejarContrasena(s, k, now).s)
  {
  }

  lemma CommandKeyKeepsInv(s: State, k: Octet, now: U32)
    requires Inv(s) && !s.change.open && !s.entry.open
    ensures Inv(ManejarComando(s, k, now).s)
  {
  }

  lemma RouteKeepsInv(s: State, k: Octet, now: U32)
    requires Inv(s)
    ensures Inv(RouteKey(s, k, now).s)
  {
    if s.change.open {
      ChangeKeyKeepsInv(s, k, now);
    } else if s.entry.open {
      EntryKeyKeepsInv(s, k, now);
    } else {
      CommandKeyKeepsInv(s, k, now);
    }
  }

  lemma ApplyKeepsInv(s: State, st: Stimulus, now: U32)
    requires Inv(s)
    ensures Inv(Apply(s, st, now).s)
  {
    match st
    case Keypad(k) => RouteKeepsInv(s, k, now);
    case Command(b) =>
      var t := Trim(b);
      if CText(t) != "GET_STATUS" && StartsWith(CText(t), "KEY:") {
        RouteKeepsInv(s, At(t, 4), now);
      }
    case _ =>
  }

  /** Whatever arrives in whatever order, the invariant holds throughout. */
  lemma {:induction false} RunKeepsInv(s: State, sts: seq<(Stimulus, U32)>)
    requires Inv(s)
    ensures Inv(Run(s, sts))
    decreases |sts|
  {
    if |sts| > 0 {
      ApplyKeepsInv(s, sts[0].0, sts[0].1);
      RunKeepsInv(Apply(s, sts[0].0, sts[0].1).s, sts[1..]);
    }
  }

  /** No stimulus changes the password without asking for the new one to be persisted. */
  lemma PasswordChangeIsPersisted(s: State, st: Stimulus, now: U32)
    ensures var r := Apply(s, st, now);
      r.s.contrasena != s.contrasena ==> SavePass(r.s.contrasena) in r.out
  {
  }

  lemma RouteLockout(s: State, k: Octet, now: U32)
    requires Inv(s)
    ensures var r := RouteKey(s, k, now);
      r.s.lock.on && !s.lock.on ==> s.change.open && r.s.alarm.armed && r.s.alarm.triggered && r.s.lock.since == now
  {
    if s.change.open {
      var r := ManejarCambioContrasena(s, k, now);
      assert r.s.lock != s.lock ==> r.s.lock == Lockout(true, now, s.alarm.armed);
    }
  }

  /** Only the third wrong current password in a change session starts the change lockout. */
  lemma LockoutOnlyFromChange(s: State, st: Stimulus, now: U32)
    requires Inv(s)
    ensures var r := Apply(s, st, now);
      r.s.lock.on && !s.lock.on ==> s.change.open && r.s.alarm.armed && r.s.alarm.triggered && r.s.lock.since == now
  {
    match st
    case Keypad(k) => RouteLockout(s, k, now);
    case Command(b) =>
      var t := Trim(b);
      if CText(t) != "GET_STATUS" && StartsWith(CText(t), "KEY:") {
        RouteLockout(s, At(t, 4), now);
      }
    case _ =>
  }
}
