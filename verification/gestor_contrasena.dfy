/**
  `GestorContrasena` of the alarm library: digit accumulation, verification
  with a failed-attempt threshold, the normal and the change-password
  lockouts (one shared stamp, expiry by comparison), the countdown, and the
  two-phase change workflow with its status codes.

  Every member function of the class becomes a pure function from the
  object's fields (and `now`, for `millis()`) to the new fields and the
  returned value.
 */
module GestorContrasena {
  import opened Common
  import Eeprom
  import Protocol

  const TIEMPO_BLOQUEO_NORMAL: nat := 30000
  const TIEMPO_BLOQUEO_CAMBIO: nat := 30000

  /** Return codes of `procesarCambioContrasena`. */
  const CONTINUAR: nat := 0
  const COMPLETADO: nat := 1
  const BLOQUEADO: nat := 2
  const ERROR: nat := 3

  datatype Gestor = Gestor(
    contrasena: Code,
    ingresado: Code,
    nueva: Code,            // nuevaContrasena
    verif: Code,            // contrasenaVerificacion
    contIngresado: Byte,
    intentosFallidos: Byte,
    intentosCambio: Byte,   // intentosCambioPass
    fase: Byte,             // faseCambioPass
    bloqueado: bool,
    bloqueadoCambio: bool,  // bloqueadoCambioPass
    tiempoBloqueo: U32)

  /** A member call: the object afterwards and the value returned. */
  datatype Call<T> = Call(g: Gestor, ret: T)

  /** The ranges the header documents: 0..4 digits, phase 0 or 1, and an attempt series below the threshold. */
  ghost predicate Valid(g: Gestor) {
    && g.contIngresado <= 4
    && g.fase <= 1
    && g.intentosFallidos < MAX_INTENTOS
  }

  /** The constructor: everything zeroed, nothing locked. */
  function Nuevo(): (g: Gestor)
    ensures Valid(g) && !EstaBloqueado(g) && g.contrasena == Blank
  {
    Gestor(Blank, Blank, Blank, Blank, 0, 0, 0, 0, false, false, 0)
  }

  /** `setContrasena`: replaces the password and nothing else. */
  function SetContrasena(g: Gestor, p: Code): (g': Gestor)
    ensures g'.contrasena == p
    ensures g'.(contrasena := g.contrasena) == g
  {
    g.(contrasena := p)
  }

  // ---------------------------------------------------------------------
  // Entry and verification
  // ---------------------------------------------------------------------

  /**
    `agregarDigito`: below 4 digits the digit goes into the next position,
    and the call reports whether that made 4; at 4 nothing changes.
   */
  function AgregarDigito(g: Gestor, d: Octet): (r: Call<bool>)
    ensures r.ret <==> g.contIngresado < 4 && r.g.contIngresado == 4
    ensures g.contIngresado < 4 ==>
      && r.g.contIngresado == g.contIngresado + 1
      && r.g.ingresado[g.contIngresado] == d
      && (forall j :: 0 <= j < 4 && j != g.contIngresado ==> r.g.ingresado[j] == g.ingresado[j])
      && r.g.(ingresado := g.ingresado, contIngresado := g.contIngresado) == g
    ensures g.contIngresado >= 4 ==> r.g == g
  {
    if g.contIngresado < 4 then
      var g' := g.(ingresado := Put(g.ingresado, g.contIngresado, d), contIngresado := g.contIngresado + 1);
      Call(g', g'.contIngresado == 4)
    else Call(g, false)
  }

  /** `reiniciarIngreso`: an empty entry. */
  function ReiniciarIngreso(g: Gestor): (g': Gestor)
    ensures g'.contIngresado == 0 && g'.ingresado == Blank
    ensures g'.(contIngresado := g.contIngresado, ingresado := g.ingresado) == g
  {
    g.(contIngresado := 0, ingresado := Blank)
  }

  /**
    `verificarContrasena`: true exactly when the four entered characters are
    the password.  Success ends the attempt series; a failure extends it,
    and the third failure sets the normal lock, stamps it and starts a new
    series.
   */
  function VerificarContrasena(g: Gestor, now: U32): (r: Call<bool>)
    ensures r.ret <==> g.ingresado == g.contrasena
    ensures r.ret ==> r.g == g.(intentosFallidos := 0)
    ensures !r.ret && Inc8(g.intentosFallidos) < MAX_INTENTOS ==>
      r.g == g.(intentosFallidos := Inc8(g.intentosFallidos))
    ensures !r.ret && Inc8(g.intentosFallidos) >= MAX_INTENTOS ==>
      r.g == g.(bloqueado := true, tiempoBloqueo := now, intentosFallidos := 0)
  {
    if !Matches(g.ingresado, g.contrasena) then
      var n := Inc8(g.intentosFallidos);
      if n >= MAX_INTENTOS then Call(g.(bloqueado := true, tiempoBloqueo := now, intentosFallidos := 0), false)
      else Call(g.(intentosFallidos := n), false)
    else Call(g.(intentosFallidos := 0), true)
  }

  // ---------------------------------------------------------------------
  // Lockouts
  // ---------------------------------------------------------------------

  /** `estaBloqueado`: either lock is set. */
  predicate EstaBloqueado(g: Gestor) {
    g.bloqueado || g.bloqueadoCambio
  }

  /**
    `verificarBloqueo`: the change lock is looked at first, the normal one
    only when the change lock is clear.  A lock ends when 30 s have passed
    since the shared stamp; ending one clears it (and, for the change lock,
    its attempt count) and returns true.  Otherwise nothing changes.
   */
  function VerificarBloqueo(g: Gestor, now: U32): (r: Call<bool>)
    ensures r.ret <==> EstaBloqueado(g) && Elapsed(now, g.tiempoBloqueo) >= LOCK_MS
    ensures !r.ret ==> r.g == g
    ensures r.ret && g.bloqueadoCambio ==> r.g == g.(bloqueadoCambio := false, intentosCambio := 0)
    ensures r.ret && !g.bloqueadoCambio ==> r.g == g.(bloqueado := false)
  {
    if g.bloqueadoCambio then
      if Elapsed(now, g.tiempoBloqueo) >= TIEMPO_BLOQUEO_CAMBIO then
        Call(g.(bloqueadoCambio := false, intentosCambio := 0), true)
      else Call(g, false)
    else if g.bloqueado then
      if Elapsed(now, g.tiempoBloqueo) >= TIEMPO_BLOQUEO_NORMAL then Call(g.(bloqueado := false), true)
      else Call(g, false)
    else Call(g, false)
  }

  /**
    `getSegundosBloqueoRestantes`: 0 when no lock is set or the active one
    has run its 30 s; otherwise the whole seconds left.
   */
  function SegundosBloqueoRestantes(g: Gestor, now: U32): (r: Byte)
    ensures r <= LOCK_MS / 1000
    ensures !EstaBloqueado(g) || Elapsed(now, g.tiempoBloqueo) >= LOCK_MS ==> r == 0
    ensures EstaBloqueado(g) && Elapsed(now, g.tiempoBloqueo) < LOCK_MS ==>
      r * 1000 <= LOCK_MS - Elapsed(now, g.tiempoBloqueo) < r * 1000 + 1000
  {
    var e := Elapsed(now, g.tiempoBloqueo);
    if g.bloqueadoCambio then
      if e < TIEMPO_BLOQUEO_CAMBIO then RemainingSeconds(e, TIEMPO_BLOQUEO_CAMBIO) else 0
    else if g.bloqueado then
      if e < TIEMPO_BLOQUEO_NORMAL then RemainingSeconds(e, TIEMPO_BLOQUEO_NORMAL) else 0
    else 0
  }

  /** `setBloqueo`: sets and stamps, or clears, the change lock only. */
  function SetBloqueo(g: Gestor, estado: bool, now: U32): (g': Gestor)
    ensures g'.bloqueadoCambio == estado
    ensures estado ==> g' == g.(bloqueadoCambio := true, tiempoBloqueo := now)
    ensures !estado ==> g' == g.(bloqueadoCambio := false)
  {
    if estado then g.(bloqueadoCambio := true, tiempoBloqueo := now)
    else g.(bloqueadoCambio := false)
  }

  // ---------------------------------------------------------------------
  // Change workflow
  // ---------------------------------------------------------------------

  /** Phase 0 with an empty entry and a fresh attempt series; the password is kept. */
  function ResetCambio(g: Gestor): (g': Gestor)
    ensures g'.fase == 0 && g'.contIngresado == 0 && g'.intentosCambio == 0
    ensures g'.verif == Blank && g'.nueva == Blank
    ensures g'.contrasena == g.contrasena && g'.intentosFallidos == g.intentosFallidos
    ensures g'.bloqueado == g.bloqueado && g'.bloqueadoCambio == g.bloqueadoCambio
    ensures g'.tiempoBloqueo == g.tiempoBloqueo && g'.ingresado == g.ingresado
  {
    g.(fase := 0, contIngresado := 0, intentosCambio := 0, verif := Blank, nueva := Blank)
  }

  /** `iniciarCambioContrasena`: phase 0, nothing entered, no attempts; the password and the locks are kept. */
  function IniciarCambio(g: Gestor): (g': Gestor)
    ensures g'.fase == 0 && g'.contIngresado == 0 && g'.intentosCambio == 0
    ensures g'.contrasena == g.contrasena && g'.bloqueadoCambio == g.bloqueadoCambio && g'.bloqueado == g.bloqueado
    ensures EstaCambiando(g')
  {
    ResetCambio(g)
  }

  /**
    `cancelarCambioContrasena`: the same reset as starting one, so the
    password is kept and `estaCambiandoContrasena` still answers true.
   */
  function CancelarCambio(g: Gestor): (g': Gestor)
    ensures g' == IniciarCambio(g)
    ensures g'.contrasena == g.contrasena && g'.fase == 0 && g'.contIngresado == 0 && g'.intentosCambio == 0
    ensures EstaCambiando(g')
  {
    ResetCambio(g)
  }

  /** `estaCambiandoContrasena`. */
  predicate EstaCambiando(g: Gestor) {
    (g.fase == 0 || g.fase == 1) && g.contIngresado < 4
  }

  /** One change digit: the object, the EEPROM, the serial lines sent, and the return code. */
  datatype Change = Change(g: Gestor, mem: Eeprom.Memory, lines: seq<string>, code: nat)

  /**
    `procesarCambioContrasena` exactly as written: it stores the digit at
    `contIngresado` without checking that the count is below 4 (a store
    past the 4-character buffer is undefined in C and is not modelled here:
    the buffer is left as it was, the count still goes up).
   */
  function ProcesarCambioAsWritten(g: Gestor, d: Octet, mem: Eeprom.Memory, now: U32): (r: Change)
    ensures r.code <= 3
  {
    if g.fase == 0 then
      var v := Put(g.verif, g.contIngresado, d);
      var c := Inc8(g.contIngresado);
      if c == 4 then
        if Matches(v, g.contrasena) then
          Change(g.(verif := v, fase := 1, contIngresado := 0, intentosCambio := 0, nueva := Blank), mem,
                 [Protocol.EventLine("CONTRASENA_ACTUAL_VERIFICADA")], CONTINUAR)
        else
          var k := Inc8(g.intentosCambio);
          var fail := [Protocol.EventLine("VERIFICACION_FALLIDA_CAMBIO_PASS")];
          if k >= MAX_INTENTOS then
            Change(g.(verif := v, contIngresado := c, intentosCambio := k, bloqueadoCambio := true, tiempoBloqueo := now), mem,
                   fail + [Protocol.EventLine("SISTEMA_BLOQUEADO_CAMBIO_PASS_ALARMA_ACTIVADA")], BLOQUEADO)
          else
            Change(g.(verif := Blank, contIngresado := 0, intentosCambio := k), mem, fail, ERROR)
      else Change(g.(verif := v, contIngresado := c), mem, [], CONTINUAR)
    else if g.fase == 1 then
      var n := Put(g.nueva, g.contIngresado, d);
      var c := Inc8(g.contIngresado);
      if c == 4 then
        Change(g.(contrasena := n, fase := 0, contIngresado := 0, intentosCambio := 0, verif := Blank, nueva := Blank),
               Eeprom.GuardarContrasena(mem, n),
               [Protocol.NewPassLine(n), Protocol.EventLine("CONTRASENA_CAMBIADA_EXITOSAMENTE")], COMPLETADO)
      else Change(g.(nueva := n, contIngresado := c), mem, [], CONTINUAR)
    else Change(g, mem, [], CONTINUAR)
  }

  /**
    `procesarCambioContrasena` with the bound `agregarDigito` already has:
    a digit arriving with 4 already entered changes nothing and returns 0.

    Phase 0 collects the current password: a match moves to phase 1 with
    the count and the attempt series reset (0); a mismatch extends the
    series and clears the entry (3), and the third mismatch sets and stamps
    the change lock instead (2).  Phase 1 accepts any 4 characters: they
    become the password, are saved and announced, and the session returns
    to phase 0 with everything reset (1).  Before the fourth character
    every call returns 0.
   */
  function ProcesarCambio(g: Gestor, d: Octet, mem: Eeprom.Memory, now: U32): (r: Change)
    ensures r.code <= 3
    ensures g.fase <= 1 ==> r.g.fase <= 1
    ensures g.contIngresado <= 4 ==> r.g.contIngresado <= 4
    // the password changes only by completing phase 1, and then it is saved
    ensures r.code == COMPLETADO ==>
      && g.fase == 1 && g.contIngresado == 3
      && r.g.contrasena == Put(g.nueva, 3, d)
      && r.mem == Eeprom.GuardarContrasena(mem, r.g.contrasena)
      && r.g.fase == 0 && r.g.contIngresado == 0 && r.g.intentosCambio == 0
    ensures r.code != COMPLETADO ==> r.g.contrasena == g.contrasena && r.mem == mem
    ensures r.code == BLOQUEADO ==> r.g.bloqueadoCambio && r.g.tiempoBloqueo == now && !EstaCambiando(r.g)
  {
    if g.contIngresado >= 4 then Change(g, mem, [], CONTINUAR)
    else ProcesarCambioAsWritten(g, d, mem, now)
  }

  /**
    The fourth digit of phase 0: the current password advances to phase 1
    (0); a wrong one counts an attempt and clears the entry (3), or, as the
    third, sets and stamps the change lock (2).
   */
  lemma FourthCurrentDigit(g: Gestor, d: Octet, mem: Eeprom.Memory, now: U32)
    requires g.fase == 0 && g.contIngresado == 3
    ensures var r := ProcesarCambio(g, d, mem, now);
      var v := Put(g.verif, 3, d);
      && (v == g.contrasena ==>
            r.code == CONTINUAR && r.g.fase == 1 && r.g.contIngresado == 0 && r.g.intentosCambio == 0)
      && (v != g.contrasena ==> r.g.intentosCambio == Inc8(g.intentosCambio) && r.g.fase == 0)
      && (v != g.contrasena && r.g.intentosCambio < MAX_INTENTOS ==>
            r.code == ERROR && r.g.contIngresado == 0 && r.g.verif == Blank && r.g.bloqueadoCambio == g.bloqueadoCambio)
      && (v != g.contrasena && r.g.intentosCambio >= MAX_INTENTOS ==>
            r.code == BLOQUEADO && r.g.bloqueadoCambio && r.g.tiempoBloqueo == now)
  {
  }

  /** Digits before the fourth only collect: the call returns 0 and the attempt count stays. */
  lemma EarlierDigitsCollect(g: Gestor, d: Octet, mem: Eeprom.Memory, now: U32)
    requires g.contIngresado < 3
    ensures var r := ProcesarCambio(g, d, mem, now);
      && r.code == CONTINUAR && r.g.intentosCambio == g.intentosCambio && r.g.contrasena == g.contrasena
      && (g.fase <= 1 ==> r.g.contIngresado == g.contIngresado + 1)
  {
  }
}
