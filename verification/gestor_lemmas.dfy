/**
  Properties of `GestorContrasena` that relate several calls: entering a
  code digit by digit, full change sessions, the lockout escalation and its
  expiry, the documented ranges kept by every member function, and the
  overrun of the buffer in `procesarCambioContrasena` as written.
 */
module GestorLemmas {
  import opened Common
  import Eeprom
  import opened GestorContrasena

  // ---------------------------------------------------------------------
  // Verification
  // ---------------------------------------------------------------------

  /** The object after a fresh entry of the four characters of `c`, with what each `agregarDigito` returned. */
  function EnterCode(g: Gestor, c: Code): (Gestor, seq<bool>) {
    var r0 := AgregarDigito(ReiniciarIngreso(g), c[0]);
    var r1 := AgregarDigito(r0.g, c[1]);
    var r2 := AgregarDigito(r1.g, c[2]);
    var r3 := AgregarDigito(r2.g, c[3]);
    (r3.g, [r0.ret, r1.ret, r2.ret, r3.ret])
  }

  /**
    Four digits after `reiniciarIngreso` fill the entry with exactly those
    digits; only the fourth reports completion; and verification then
    succeeds exactly for the password.
   */
  lemma EnterAndVerify(g: Gestor, c: Code, now: U32)
    ensures var (g', done) := EnterCode(g, c);
      && done == [false, false, false, true]
      && g'.ingresado == c && g'.contIngresado == 4
      && (VerificarContrasena(g', now).ret <==> c == g.contrasena)
  {
    var (g', done) := EnterCode(g, c);
    assert g'.ingresado == [c[0], c[1], c[2], c[3]];
    assert [c[0], c[1], c[2], c[3]] == c;
  }

  /** Three failed verifications in a row from a fresh series set the normal lock at the time of the third. */
  lemma ThirdFailureLocks(g: Gestor, t1: U32, t2: U32, t3: U32)
    requires g.intentosFallidos == 0 && g.ingresado != g.contrasena
    ensures var r1 := VerificarContrasena(g, t1);
      var r2 := VerificarContrasena(r1.g, t2);
      var r3 := VerificarContrasena(r2.g, t3);
      && !r1.g.bloqueado == !g.bloqueado && r1.g.intentosFallidos == 1
      && r2.g.bloqueado == g.bloqueado && r2.g.intentosFallidos == 2
      && r3.g.bloqueado && r3.g.tiempoBloqueo == t3 && r3.g.intentosFallidos == 0
  {
  }

  // ---------------------------------------------------------------------
  // Lockout expiry and countdown
  // ---------------------------------------------------------------------

  /**
    `verificarBloqueo` returns true at most once per lock: after one true a
    second call returns true only when both locks were set, and a third call
    always returns false and changes nothing.
   */
  lemma VerificarBloqueoSettles(g: Gestor, now: U32)
    ensures var r1 := VerificarBloqueo(g, now);
      var r2 := VerificarBloqueo(r1.g, now);
      var r3 := VerificarBloqueo(r2.g, now);
      && (r2.ret ==> r1.ret && g.bloqueado && g.bloqueadoCambio)
      && !r3.ret && r3.g == r2.g
  {
  }

  /** While the countdown shows a second left the lock does not end, and once it ends the countdown shows 0. */
  lemma CountdownAgreesWithExpiry(g: Gestor, now: U32)
    ensures SegundosBloqueoRestantes(g, now) > 0 ==> !VerificarBloqueo(g, now).ret
    ensures VerificarBloqueo(g, now).ret ==> SegundosBloqueoRestantes(g, now) == 0
    ensures EstaBloqueado(g) && !VerificarBloqueo(g, now).ret ==>
      Elapsed(now, g.tiempoBloqueo) < LOCK_MS
  {
  }

  /**
    `estaBloqueado` keeps answering true until `verificarBloqueo` ends a
    lock 30 s after the stamp, and it turns false exactly when that call
    ends the only lock set; nothing here sets a lock.
   */
  lemma BlockedUntilExpiry(g: Gestor, now: U32)
    ensures var r := VerificarBloqueo(g, now);
      && (EstaBloqueado(r.g) ==> EstaBloqueado(g))
      && (EstaBloqueado(g) && Elapsed(now, g.tiempoBloqueo) < LOCK_MS ==> EstaBloqueado(r.g))
      && (EstaBloqueado(g) && !EstaBloqueado(r.g) <==> r.ret && !(g.bloqueado && g.bloqueadoCambio))
  {
  }

  /** A lock stamped at `t` is still on at every instant up to `t + 29999` and ends at `t + 30000`. */
  lemma LockNeverEndsEarly(g: Gestor, t: U32, d: nat)
    requires EstaBloqueado(g) && g.tiempoBloqueo == t && t + d < 0x1_0000_0000
    ensures VerificarBloqueo(g, t + d).ret <==> d >= LOCK_MS
  {
  }

  // ---------------------------------------------------------------------
  // Change sessions
  // ---------------------------------------------------------------------

  datatype Session = Session(g: Gestor, mem: Eeprom.Memory, codes: seq<nat>)

  /** `procesarCambioContrasena` called with the four characters of `c` in turn. */
  function FeedCambio(g: Gestor, mem: Eeprom.Memory, c: Code, now: U32): Session {
    var r0 := ProcesarCambio(g, c[0], mem, now);
    var r1 := ProcesarCambio(r0.g, c[1], r0.mem, now);
    var r2 := ProcesarCambio(r1.g, c[2], r1.mem, now);
    var r3 := ProcesarCambio(r2.g, c[3], r2.mem, now);
    Session(r3.g, r3.mem, [r0.code, r1.code, r2.code, r3.code])
  }

  /**
    `estaCambiandoContrasena` holds for a new object, and during a session
    in range it stays true after each change digit except the one that
    returns 2 (the change lock), which leaves 4 digits counted.
   */
  lemma CambiandoUntilLocked(g: Gestor, d: Octet, mem: Eeprom.Memory, now: U32)
    requires Valid(g) && EstaCambiando(g)
    ensures EstaCambiando(Nuevo())
    ensures var r := ProcesarCambio(g, d, mem, now);
      EstaCambiando(r.g) <==> r.code != BLOQUEADO
  {
  }

  /** In phase 0, the current password moves the session to phase 1 with the count and attempts reset. */
  lemma CurrentPasswordAdvances(g: Gestor, mem: Eeprom.Memory, now: U32)
    requires g.fase == 0 && g.contIngresado == 0
    ensures FeedCambio(g, mem, g.contrasena, now) ==
      Session(g.(fase := 1, contIngresado := 0, intentosCambio := 0, verif := g.contrasena, nueva := Blank),
              mem, [CONTINUAR, CONTINUAR, CONTINUAR, CONTINUAR])
  {
    var c := g.contrasena;
    assert Put(Put(Put(Put(g.verif, 0, c[0]), 1, c[1]), 2, c[2]), 3, c[3]) == c;
  }

  /**
    In phase 1, any four characters become the password, are saved, and the
    session ends in phase 0 with every counter reset; the last call returns 1.
   */
  lemma NewPasswordCompletes(g: Gestor, mem: Eeprom.Memory, p: Code, now: U32)
    requires g.fase == 1 && g.contIngresado == 0
    ensures FeedCambio(g, mem, p, now) ==
      Session(g.(contrasena := p, fase := 0, contIngresado := 0, intentosCambio := 0, verif := Blank, nueva := Blank),
              Eeprom.GuardarContrasena(mem, p), [CONTINUAR, CONTINUAR, CONTINUAR, COMPLETADO])
  {
    assert Put(Put(Put(Put(g.nueva, 0, p[0]), 1, p[1]), 2, p[2]), 3, p[3]) == p;
  }

  /**
    A whole change session: start, the current password, any new one.  The
    password becomes the new one and the EEPROM then loads it back as valid.
   */
  lemma ChangeSession(g: Gestor, mem: Eeprom.Memory, p: Code, now: U32)
    ensures var g0 := IniciarCambio(g);
      var s1 := FeedCambio(g0, mem, g.contrasena, now);
      var s2 := FeedCambio(s1.g, s1.mem, p, now);
      && s1.codes + s2.codes == [0, 0, 0, 0, 0, 0, 0, 1]
      && s2.g.contrasena == p && s2.g.fase == 0 && s2.g.contIngresado == 0
      && Eeprom.CargarContrasena(s2.mem) == Eeprom.Loaded(s2.mem, p, true)
  {
    var g0 := IniciarCambio(g);
    CurrentPasswordAdvances(g0, mem, now);
    var s1 := FeedCambio(g0, mem, g.contrasena, now);
    NewPasswordCompletes(s1.g, s1.mem, p, now);
    Eeprom.SaveLoad(mem, p);
  }

  /** A wrong current password below the threshold returns 3 with the entry cleared and one more attempt counted. */
  lemma WrongAttempt(g: Gestor, mem: Eeprom.Memory, w: Code, now: U32)
    requires g.fase == 0 && g.contIngresado == 0 && w != g.contrasena && g.intentosCambio < 2
    ensures FeedCambio(g, mem, w, now) ==
      Session(g.(intentosCambio := g.intentosCambio + 1, verif := Blank), mem, [CONTINUAR, CONTINUAR, CONTINUAR, ERROR])
  {
    assert Put(Put(Put(Put(g.verif, 0, w[0]), 1, w[1]), 2, w[2]), 3, w[3]) == w;
  }

  /** The third wrong current password returns 2 and sets and stamps the change lock; the entry is left full. */
  lemma LockingAttempt(g: Gestor, mem: Eeprom.Memory, w: Code, now: U32)
    requires g.fase == 0 && g.contIngresado == 0 && w != g.contrasena && g.intentosCambio == 2
    ensures FeedCambio(g, mem, w, now) ==
      Session(g.(intentosCambio := 3, verif := w, contIngresado := 4, bloqueadoCambio := true, tiempoBloqueo := now),
              mem, [CONTINUAR, CONTINUAR, CONTINUAR, BLOQUEADO])
  {
    assert Put(Put(Put(Put(g.verif, 0, w[0]), 1, w[1]), 2, w[2]), 3, w[3]) == w;
  }

  /**
    Three wrong current passwords after starting a change: returns 3, 3, 2,
    the change lock is on from the third, the password is unchanged, and
    the lock ends exactly when 30 s have passed.
   */
  lemma ThreeWrongLockChange(g: Gestor, mem: Eeprom.Memory, w1: Code, w2: Code, w3: Code, t: U32, later: U32)
    requires w1 != g.contrasena && w2 != g.contrasena && w3 != g.contrasena
    ensures var s1 := FeedCambio(IniciarCambio(g), mem, w1, t);
      var s2 := FeedCambio(s1.g, s1.mem, w2, t);
      var s3 := FeedCambio(s2.g, s2.mem, w3, t);
      && s1.codes[3] == ERROR && s2.codes[3] == ERROR && s3.codes[3] == BLOQUEADO
      && s3.g.bloqueadoCambio && s3.g.tiempoBloqueo == t && s3.g.contrasena == g.contrasena
      && s3.mem == mem
      && (VerificarBloqueo(s3.g, later).ret <==> Elapsed(later, t) >= LOCK_MS)
  {
    var g0 := IniciarCambio(g);
    WrongAttempt(g0, mem, w1, t);
    var s1 := FeedCambio(g0, mem, w1, t);
    WrongAttempt(s1.g, s1.mem, w2, t);
    var s2 := FeedCambio(s1.g, s1.mem, w2, t);
    LockingAttempt(s2.g, s2.mem, w3, t);
  }

  // ---------------------------------------------------------------------
  // The documented ranges hold under every member function
  // ---------------------------------------------------------------------

  /** The calls a sketch can make on the object. */
  datatype Op =
    | SetPass(p: Code)
    | Agregar(d: Octet)
    | Verificar
    | Reiniciar
    | ComprobarBloqueo
    | Bloqueo(estado: bool)
    | Iniciar
    | Procesar(d: Octet)
    | Cancelar

  datatype Sys = Sys(g: Gestor, mem: Eeprom.Memory)

  function Apply(s: Sys, op: Op, now: U32): Sys {
    match op
    case SetPass(p) => s.(g := SetContrasena(s.g, p))
    case Agregar(d) => s.(g := AgregarDigito(s.g, d).g)
    case Verificar => s.(g := VerificarContrasena(s.g, now).g)
    case Reiniciar => s.(g := ReiniciarIngreso(s.g))
    case ComprobarBloqueo => s.(g := VerificarBloqueo(s.g, now).g)
    case Bloqueo(e) => s.(g := SetBloqueo(s.g, e, now))
    case Iniciar => s.(g := IniciarCambio(s.g))
    case Procesar(d) =>
      var r := ProcesarCambio(s.g, d, s.mem, now);
      Sys(r.g, r.mem)
    case Cancelar => s.(g := CancelarCambio(s.g))
  }

  function Run(s: Sys, ops: seq<(Op, U32)>): Sys
    decreases |ops|
  {
    if |ops| == 0 then s else Run(Apply(s, ops[0].0, ops[0].1), ops[1..])
  }

  /** Each member call, with the bounded change step, keeps the documented ranges. */
  lemma ApplyKeepsValid(s: Sys, op: Op, now: U32)
    requires Valid(s.g)
    ensures Valid(Apply(s, op, now).g)
  {
  }

  /**
    Whatever calls are made, with the bounded change step, the entry count
    stays within 0..4, the phase is 0 or 1 and the failed-attempt count
    stays below 3.
   */
  lemma {:induction false} RunKeepsValid(s: Sys, ops: seq<(Op, U32)>)
    requires Valid(s.g)
    ensures Valid(Run(s, ops).g)
    decreases |ops|
  {
    if |ops| > 0 {
      ApplyKeepsValid(s, ops[0].0, ops[0].1);
      RunKeepsValid(Apply(s, ops[0].0, ops[0].1), ops[1..]);
    }
  }

  /** The password changes only through `setContrasena` or a completed change session, which also saves it. */
  lemma PasswordChangesOnlyByDesign(s: Sys, op: Op, now: U32)
    ensures var s' := Apply(s, op, now);
      s'.g.contrasena != s.g.contrasena ==>
        || op.SetPass?
        || (op.Procesar? && s'.mem == Eeprom.GuardarContrasena(s.mem, s'.g.contrasena))
  {
  }

  // ---------------------------------------------------------------------
  // procesarCambioContrasena as written
  // ---------------------------------------------------------------------

  /**
    As written, the digit after the locking attempt (which returned 2 and
    left the count at 4) is stored past the 4-character buffer and the
    count becomes 5, outside the documented range 0..4; the bounded version
    ignores it.
   */
  lemma AsWrittenOverrunsAfterLock(g: Gestor, mem: Eeprom.Memory, w: Code, d: Octet, now: U32)
    requires Valid(g) && g.fase == 0 && g.contIngresado == 0 && w != g.contrasena && g.intentosCambio == 2
    ensures var s := FeedCambio(g, mem, w, now);
      && s.codes[3] == BLOQUEADO
      && ProcesarCambioAsWritten(s.g, d, s.mem, now).g.contIngresado == 5
      && !Valid(ProcesarCambioAsWritten(s.g, d, s.mem, now).g)
      && ProcesarCambio(s.g, d, s.mem, now).g == s.g
  {
    LockingAttempt(g, mem, w, now);
  }

  /** A concrete run: password "1234", a change started, "0000" three times, then the digit '5'. */
  lemma AsWrittenOverrunExample()
    ensures
      var g0 := IniciarCambio(SetContrasena(Nuevo(), "1234"));
      var mem := Eeprom.Memory(map[]);
      var s1 := FeedCambio(g0, mem, "0000", 0);
      var s2 := FeedCambio(s1.g, s1.mem, "0000", 0);
      var s3 := FeedCambio(s2.g, s2.mem, "0000", 0);
      ProcesarCambioAsWritten(s3.g, '5', s3.mem, 0).g.contIngresado == 5
  {
    var g0 := IniciarCambio(SetContrasena(Nuevo(), "1234"));
    var mem := Eeprom.Memory(map[]);
    var w: Code := "0000";
    assert w[0] != ('1' as Octet);
    WrongAttempt(g0, mem, w, 0);
    var s1 := FeedCambio(g0, mem, w, 0);
    WrongAttempt(s1.g, s1.mem, w, 0);
    var s2 := FeedCambio(s1.g, s1.mem, w, 0);
    AsWrittenOverrunsAfterLock(s2.g, s2.mem, w, '5', 0);
  }
}
