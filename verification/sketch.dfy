/**
  The security state engine of the sketch (`Arduino/funciones.h`): the
  sketch's globals as one immutable record, and one pure function per
  handler.  Each handler takes the key, sensor reading or command it is
  called with, and `now` for every `millis()` it reads, and returns the new
  record together with what it sends out: EVENT and STATUS lines, the
  NEW_PASS line, and requests to persist the password.
 */
module Sketch {
  import opened Common
  import Decimal
  import opened Protocol

  /** The alarm proper and the auto-arm settings. */
  datatype Alarm = Alarm(
    armed: bool,            // alarmaActivada
    triggered: bool,        // alarmaDisparada
    ultimaDeteccion: U32,   // last motion or key, for auto-arm
    autoOn: bool,           // autoActivacionHabilitada
    umbral: U32)            // TIEMPO_INACTIVIDAD_PARA_ACTIVAR, in ms

  /** A password entry to arm or disarm. */
  datatype Entry = Entry(
    open: bool,             // pidendoContrasena
    accion: Octet,          // 'A' arm, anything else disarm
    cont: nat,              // digits entered so far
    ingresado: Code,
    intentos: nat)          // failed entries in a row

  /** A password-change session. */
  datatype ChangeSession = ChangeSession(
    open: bool,             // cambiandoContrasena
    fase: nat,              // faseCambioPass: 0 current password, 1 new one
    cont: nat,              // contNuevaPass: digits entered in this phase
    verif: Code,            // contrasenaVerificacion
    nueva: Code,            // nuevaContrasena
    intentos: nat)          // intentosCambioPass

  /** The lockout after three wrong current passwords in a change session. */
  datatype Lockout = Lockout(
    on: bool,               // bloqueadoCambioPass
    since: U32,             // tiempoBloqueoPass
    armedAntes: bool)       // alarmaActivadaAntes

  /** The sketch's globals that the engine reads or writes. */
  datatype State = State(alarm: Alarm, entry: Entry, change: ChangeSession, lock: Lockout, contrasena: Code)

  /** Something a handler sends out. */
  datatype Effect =
    | Event(name: string)       // EVENT:HARDWARE:<name>
    | Status(info: StatusInfo)  // STATUS:...
    | NewPass(code: Code)       // NEW_PASS:<code>
    | SavePass(code: Code)      // guardarContrasenaEEPROM() with this password

  datatype Step = Step(s: State, out: seq<Effect>)

  const MS_PER_MINUTE: nat := 60000

  /** The serial line an effect prints; persisting prints nothing. */
  function SerialText(e: Effect): string {
    match e
    case Event(n) => EventLine(n)
    case Status(i) => FormatStatus(i)
    case NewPass(c) => NewPassLine(c)
    case SavePass(_) => ""
  }

  /**
    `enviarEstadoSerial`: a STATUS line that reads back as the armed and
    triggered flags, the auto-arm switch and the threshold in whole minutes.
   */
  function EnviarEstadoSerial(a: Alarm): (e: Effect)
    ensures e.Status?
    ensures ParseStatus(SerialText(e)) == Some(StatusInfo(a.armed, a.triggered, a.autoOn, a.umbral / MS_PER_MINUTE))
  {
    var i := StatusInfo(a.armed, a.triggered, a.autoOn, a.umbral / MS_PER_MINUTE);
    ParseFormatStatus(i);
    Status(i)
  }

  // ---------------------------------------------------------------------
  // Sensors and auto-arm
  // ---------------------------------------------------------------------

  /**
    `revisarSensores` with `motion` standing for "either PIR reads HIGH".
    A reading refreshes the inactivity stamp; it latches the triggered flag
    and announces the intrusion only when the flag was clear.
   */
  function RevisarSensores(s: State, motion: bool, now: U32): (r: Step)
    ensures r.s.alarm.triggered == (s.alarm.triggered || motion)
    ensures r.s.alarm.ultimaDeteccion == (if motion then now else s.alarm.ultimaDeteccion)
    ensures r.s == s.(alarm := r.s.alarm)
    ensures r.s.alarm.(triggered := s.alarm.triggered, ultimaDeteccion := s.alarm.ultimaDeteccion) == s.alarm
    ensures |r.out| > 0 <==> motion && !s.alarm.triggered
  {
    if !motion then Step(s, [])
    else
      var a1 := s.alarm.(ultimaDeteccion := now);
      if !s.alarm.triggered then
        var a2 := a1.(triggered := true);
        Step(s.(alarm := a2), [Event("INTRUSION_DETECTADA"), EnviarEstadoSerial(a2)])
      else Step(s.(alarm := a1), [])
  }

  /** Whether `verificarAutoActivacion` arms the alarm at `now`. */
  predicate AutoArmDue(s: State, now: U32) {
    !s.alarm.armed && !s.entry.open && Elapsed(now, s.alarm.ultimaDeteccion) > s.alarm.umbral
  }

  /**
    `verificarAutoActivacion`: when disarmed, with no password entry open,
    and more than the threshold since the last activity, the alarm arms
    itself, clears the triggered flag and restarts the inactivity stamp.
   */
  function VerificarAutoActivacion(s: State, now: U32): (r: Step)
    ensures AutoArmDue(s, now) ==>
      && r.s == s.(alarm := s.alarm.(armed := true, triggered := false, ultimaDeteccion := now))
      && |r.out| == 2 && r.out[0] == Event("ALARMA_AUTO_ACTIVADA")
    ensures !AutoArmDue(s, now) ==> r == Step(s, [])
  {
    if AutoArmDue(s, now) then
      var a1 := s.alarm.(armed := true, triggered := false);
      Step(s.(alarm := a1.(ultimaDeteccion := now)), [Event("ALARMA_AUTO_ACTIVADA"), EnviarEstadoSerial(a1)])
    else Step(s, [])
  }

  // ---------------------------------------------------------------------
  // Top-level keys
  // ---------------------------------------------------------------------

  /** `solicitarContrasena`: opens an empty entry for the given action, keeping the failure count. */
  function SolicitarContrasena(s: State, a: Octet): (r: Step)
    ensures r.s == s.(entry := r.s.entry)
    ensures r.s.entry == Entry(true, a, 0, Blank, s.entry.intentos)
  {
    Step(s.(entry := s.entry.(accion := a, open := true, cont := 0, ingresado := Blank)),
         [Event(if a == 'A' then "SOLICITANDO_ACTIVACION" else "SOLICITANDO_DESACTIVACION")])
  }

  /** The state of a change session just opened. */
  const FreshSession: ChangeSession := ChangeSession(true, 0, 0, Blank, Blank, 0)

  /**
    `manejarComando`: every key refreshes the inactivity stamp.  'C' opens a
    change session unless the change lockout is on; 'A' while disarmed asks
    for the password to arm; 'D' while armed or triggered asks for it to
    disarm; every other case only shows a message.  No flag of the alarm,
    no lockout and not the password change here.
   */
  function ManejarComando(s: State, tecla: Octet, now: U32): (r: Step)
    ensures r.s.alarm == s.alarm.(ultimaDeteccion := now)
    ensures r.s.lock == s.lock && r.s.contrasena == s.contrasena
    ensures r.s.change == (if tecla == 'C' && !s.lock.on then FreshSession else s.change)
    ensures var asks := (tecla == 'A' && !s.alarm.armed) || (tecla == 'D' && (s.alarm.armed || s.alarm.triggered));
      r.s.entry == (if asks && !(tecla == 'C' && !s.lock.on) then Entry(true, tecla, 0, Blank, s.entry.intentos) else s.entry)
  {
    var s0 := s.(alarm := s.alarm.(ultimaDeteccion := now));
    if tecla == 'C' && !s.lock.on then
      Step(s0.(change := FreshSession), [Event("INICIANDO_CAMBIO_CONTRASENA")])
    else if tecla == 'A' && !s.alarm.armed then SolicitarContrasena(s0, 'A')
    else if tecla == 'D' && (s.alarm.armed || s.alarm.triggered) then SolicitarContrasena(s0, 'D')
    else Step(s0, [])
  }

  // ---------------------------------------------------------------------
  // Password entry
  // ---------------------------------------------------------------------

  /**
    `verificarContrasena`: the entry is closed whatever the outcome.  The
    password arms (action 'A') or disarms and refreshes the inactivity stamp
    (any other action), clears the triggered flag and ends the series of
    failures.  A wrong entry counts a failure; the third one only shows a
    10 s "blocked" message and starts a new series.
   */
  function VerificarContrasena(s: State, now: U32): (r: Step)
    ensures r.s.change == s.change && r.s.lock == s.lock && r.s.contrasena == s.contrasena
    ensures r.s.entry == s.entry.(open := false, intentos := r.s.entry.intentos)
    ensures s.entry.ingresado == s.contrasena ==>
      && r.s.entry.intentos == 0
      && r.s.alarm == s.alarm.(armed := s.entry.accion == 'A', triggered := false,
                               ultimaDeteccion := if s.entry.accion == 'A' then s.alarm.ultimaDeteccion else now)
    ensures s.entry.ingresado != s.contrasena ==>
      && r.s.alarm == s.alarm
      && r.s.entry.intentos == (if s.entry.intentos + 1 >= MAX_INTENTOS then 0 else s.entry.intentos + 1)
      && Event("CLAVE_INCORRECTA") in r.out
      && (Event("SISTEMA_BLOQUEADO") in r.out <==> s.entry.intentos + 1 >= MAX_INTENTOS)
  {
    var e := s.entry.(open := false);
    if Matches(s.entry.ingresado, s.contrasena) then
      var a1 := if s.entry.accion == 'A' then s.alarm.(armed := true, triggered := false)
                else s.alarm.(armed := false, triggered := false, ultimaDeteccion := now);
      Step(s.(alarm := a1, entry := e.(intentos := 0)),
           [Event(if s.entry.accion == 'A' then "ALARMA_ACTIVADA" else "ALARMA_DESACTIVADA"), EnviarEstadoSerial(a1)])
    else
      var n := s.entry.intentos + 1;
      if n >= MAX_INTENTOS then
        Step(s.(entry := e.(intentos := 0)), [Event("CLAVE_INCORRECTA"), Event("SISTEMA_BLOQUEADO")])
      else Step(s.(entry := e.(intentos := n)), [Event("CLAVE_INCORRECTA")])
  }

  /**
    `manejarContrasena`: a digit is stored at the next position and the
    fourth one runs the verification; '#' closes the entry and leaves the
    count and the failures alone; any other key is ignored.
   */
  function ManejarContrasena(s: State, tecla: Octet, now: U32): (r: Step)
    ensures tecla == '#' ==> r.s == s.(entry := s.entry.(open := false)) && r.out == [Event("INGRESO_CANCELADO")]
    ensures !Decimal.IsDigit(tecla) && tecla != '#' ==> r == Step(s, [])
    // a digit before the fourth is only collected
    ensures Decimal.IsDigit(tecla) && s.entry.cont != 3 ==>
      && r.out == [] && r.s == s.(entry := r.s.entry)
      && r.s.entry == s.entry.(cont := s.entry.cont + 1, ingresado := r.s.entry.ingresado)
      && (s.entry.cont < 4 ==>
            && r.s.entry.ingresado[s.entry.cont] == tecla
            && forall j :: 0 <= j < 4 && j != s.entry.cont ==> r.s.entry.ingresado[j] == s.entry.ingresado[j])
    // the fourth digit closes the entry with the outcome decided by the code typed
    ensures Decimal.IsDigit(tecla) && s.entry.cont == 3 ==>
      var typed := Put(s.entry.ingresado, 3, tecla);
      && !r.s.entry.open && r.s.entry.ingresado == typed
      && r.s.change == s.change && r.s.lock == s.lock && r.s.contrasena == s.contrasena
      && (typed == s.contrasena ==>
            r.s.alarm.armed == (s.entry.accion == 'A') && !r.s.alarm.triggered && r.s.entry.intentos == 0)
      && (typed != s.contrasena ==>
            && r.s.alarm == s.alarm && Event("CLAVE_INCORRECTA") in r.out
            && r.s.entry.intentos == (if s.entry.intentos + 1 >= MAX_INTENTOS then 0 else s.entry.intentos + 1))
  {
    if Decimal.IsDigit(tecla) then
      var e := s.entry.(ingresado := Put(s.entry.ingresado, s.entry.cont, tecla), cont := s.entry.cont + 1);
      if e.cont == 4 then VerificarContrasena(s.(entry := e), now) else Step(s.(entry := e), [])
    else if tecla == '#' then Step(s.(entry := s.entry.(open := false)), [Event("INGRESO_CANCELADO")])
    else Step(s, [])
  }

  // ---------------------------------------------------------------------
  // Password change
  // ---------------------------------------------------------------------

  /** A session closed with its phase, count and buffers cleared and the given failure count. */
  function Closed(intentos: nat): ChangeSession {
    ChangeSession(false, 0, 0, Blank, Blank, intentos)
  }

  /**
    `manejarCambioContrasena`.  Phase 0 collects the current password: a
    match moves to phase 1 with the count and the failures reset; a
    mismatch counts a failure and clears the entry, and the third one sets
    and stamps the change lockout, saves the armed flag, forces the alarm
    armed and triggered, and closes the session.  Phase 1 takes any four
    digits as the new password, persists and announces it, and closes the
    session with every counter reset.  '#' closes the session in either
    phase.  The password entry and the inactivity stamp are never touched.
   */
  function ManejarCambioContrasena(s: State, tecla: Octet, now: U32): (r: Step)
    ensures r.s.entry == s.entry && r.s.alarm.ultimaDeteccion == s.alarm.ultimaDeteccion
    ensures r.s.contrasena != s.contrasena ==>
      && Decimal.IsDigit(tecla) && s.change.fase == 1 && s.change.cont == 3
      && r.s.contrasena == Put(s.change.nueva, 3, tecla) && r.s.change == Closed(0)
      && r.out == [SavePass(r.s.contrasena), NewPass(r.s.contrasena), Event("CONTRASENA_CAMBIADA_EXITOSAMENTE")]
    ensures tecla == '#' ==> r.s == s.(change := Closed(0))
    ensures r.s.alarm != s.alarm || r.s.lock != s.lock ==>
      && r.s.lock == Lockout(true, now, s.alarm.armed)
      && r.s.alarm == s.alarm.(armed := true, triggered := true)
      && r.s.change == Closed(s.change.intentos + 1) && s.change.intentos + 1 >= MAX_INTENTOS
  {
    var c := s.change;
    if Decimal.IsDigit(tecla) then
      if c.fase == 0 then
        var v := Put(c.verif, c.cont, tecla);
        if c.cont + 1 == 4 then
          if Matches(v, s.contrasena) then
            Step(s.(change := c.(verif := v, fase := 1, cont := 0, intentos := 0, nueva := Blank)),
                 [Event("CONTRASENA_ACTUAL_VERIFICADA")])
          else
            var k := c.intentos + 1;
            if k >= MAX_INTENTOS then
              var a1 := s.alarm.(armed := true, triggered := true);
              Step(s.(alarm := a1, lock := Lockout(true, now, s.alarm.armed), change := Closed(k)),
                   [Event("VERIFICACION_FALLIDA_CAMBIO_PASS"),
                    Event("SISTEMA_BLOQUEADO_CAMBIO_PASS_ALARMA_ACTIVADA"),
                    EnviarEstadoSerial(a1)])
            else
              Step(s.(change := c.(intentos := k, cont := 0, verif := Blank)), [Event("VERIFICACION_FALLIDA_CAMBIO_PASS")])
        else Step(s.(change := c.(verif := v, cont := c.cont + 1)), [])
      else if c.fase == 1 then
        var n := Put(c.nueva, c.cont, tecla);
        if c.cont + 1 == 4 then
          Step(s.(contrasena := n, change := Closed(0)),
               [SavePass(n), NewPass(n), Event("CONTRASENA_CAMBIADA_EXITOSAMENTE")])
        else Step(s.(change := c.(nueva := n, cont := c.cont + 1)), [])
      else Step(s, [])
    else if tecla == '#' then
      Step(s.(change := Closed(0)), [Event("CAMBIO_CONTRASENA_CANCELADO")])
    else Step(s, [])
  }

  /**
    `verificarCambioContrasena`: the change lockout ends once 30 s have
    passed since it was stamped; then the armed flag is restored to what it
    was before the lockout, the triggered flag is cleared and the failures
    are reset.  Before that, nothing changes.
   */
  function VerificarCambioContrasena(s: State, now: U32): (r: Step)
    ensures var expires := s.lock.on && Elapsed(now, s.lock.since) >= LOCK_MS;
      && (expires ==> r.s == s.(lock := s.lock.(on := false), change := s.change.(intentos := 0),
                                alarm := s.alarm.(armed := s.lock.armedAntes, triggered := false)))
      && (!expires ==> r == Step(s, []))
  {
    if s.lock.on && Elapsed(now, s.lock.since) >= LOCK_MS then
      var a1 := s.alarm.(armed := s.lock.armedAntes, triggered := false);
      Step(s.(lock := s.lock.(on := false), change := s.change.(intentos := 0), alarm := a1),
           [Event("BLOQUEO_CAMBIO_PASS_FINALIZADO"), EnviarEstadoSerial(a1)])
    else Step(s, [])
  }

  /** The countdown `verificarCambioContrasena` shows while the change lockout runs. */
  function SegundosRestantes(s: State, now: U32): (r: nat)
    requires s.lock.on && Elapsed(now, s.lock.since) < LOCK_MS
    ensures r <= 30
    ensures r * 1000 <= LOCK_MS - Elapsed(now, s.lock.since) < r * 1000 + 1000
  {
    RemainingSeconds(Elapsed(now, s.lock.since), LOCK_MS)
  }

  // ---------------------------------------------------------------------
  // Serial commands
  // ---------------------------------------------------------------------

  /**
    Where a key goes: the open change session, else the open entry, else the
    top level.  Only a change session touches the password or the lockout;
    it leaves the entry alone, the entry leaves the session alone, and a key
    at the top level changes neither alarm flag.
   */
  function RouteKey(s: State, tecla: Octet, now: U32): (r: Step)
    ensures r.s.contrasena != s.contrasena ==> s.change.open && SavePass(r.s.contrasena) in r.out
    ensures r.s.lock != s.lock ==> s.change.open && r.s.lock == Lockout(true, now, s.alarm.armed)
    ensures s.change.open ==> r.s.entry == s.entry
    ensures !s.change.open && s.entry.open ==> r.s.change == s.change
    ensures !s.change.open && !s.entry.open ==>
      r.s.alarm.armed == s.alarm.armed && r.s.alarm.triggered == s.alarm.triggered
  {
    if s.change.open then ManejarCambioContrasena(s, tecla, now)
    else if s.entry.open then ManejarContrasena(s, tecla, now)
    else ManejarComando(s, tecla, now)
  }

  /** The four characters a SET_PASS command carries, at positions 9 to 12. */
  function PassArgument(b: seq<Octet>): Code {
    [At(b, 9), At(b, 10), At(b, 11), At(b, 12)]
  }

  /** A KEY command: the key is routed, then the state is reported. */
  function ProcesarTecla(s: State, tecla: Octet, now: U32): (r: Step)
    ensures r.s.contrasena != s.contrasena ==> SavePass(r.s.contrasena) in r.out
    ensures |r.out| > 0 && r.out[|r.out| - 1] == EnviarEstadoSerial(r.s.alarm)
  {
    var k := RouteKey(s, tecla, now);
    Step(k.s, k.out + [EnviarEstadoSerial(k.s.alarm)])
  }

  /**
    The commands other than KEY, on the text `t` of the trimmed buffer `b`:
    they touch only the auto-arm switch, the threshold and the password.
   */
  function Ajustar(s: State, b: seq<Octet>, t: seq<Octet>): (r: Step)
    requires t == CText(b)
    ensures r.s == s.(alarm := s.alarm.(autoOn := r.s.alarm.autoOn, umbral := r.s.alarm.umbral), contrasena := r.s.contrasena)
    ensures r.s.contrasena != s.contrasena ==> r.out == [SavePass(r.s.contrasena), Event("CONTRASENA_ACTUALIZADA_DESDE_SOFTWARE")]
  {
    if t == "GET_STATUS" then Step(s, [EnviarEstadoSerial(s.alarm)])
    else if StartsWith(t, "SET_AUTO:") then SetAuto(s, t[9..])
    else if StartsWith(t, "SET_TIME:") then SetTime(s, t[9..])
    else if StartsWith(t, "SET_PASS:") then SetPass(s, PassArgument(b))
    else Step(s, [])
  }

  /**
    SET_AUTO with the text after the colon: the switch is on exactly for the
    number 1; the new setting is announced and the STATUS line reads it back.
   */
  function SetAuto(s: State, arg: seq<Octet>): (r: Step)
    ensures r.s == s.(alarm := s.alarm.(autoOn := r.s.alarm.autoOn))
    ensures r.s.alarm.autoOn <==> Decimal.Atoi(arg) == 1
    ensures |r.out| == 2
    ensures r.out[0] == Event(if r.s.alarm.autoOn then "AUTO_ACTIVACION_HABILITADA" else "AUTO_ACTIVACION_DESHABILITADA")
    ensures ParseStatus(SerialText(r.out[1])) ==
      Some(StatusInfo(s.alarm.armed, s.alarm.triggered, r.s.alarm.autoOn, s.alarm.umbral / MS_PER_MINUTE))
  {
    var a1 := s.alarm.(autoOn := Decimal.Atoi(arg) == 1);
    Step(s.(alarm := a1),
         [Event(if a1.autoOn then "AUTO_ACTIVACION_HABILITADA" else "AUTO_ACTIVACION_DESHABILITADA"), EnviarEstadoSerial(a1)])
  }

  /** A number of minutes that fits in 32 bits as milliseconds comes back from them. */
  lemma MinutesBack(m: nat)
    ensures m * MS_PER_MINUTE < 0x1_0000_0000 ==> ((m * MS_PER_MINUTE) % 0x1_0000_0000) / MS_PER_MINUTE == m
  {
    if m * MS_PER_MINUTE < 0x1_0000_0000 {
      assert (m * MS_PER_MINUTE) % 0x1_0000_0000 == m * MS_PER_MINUTE;
    }
  }

  /**
    SET_TIME with the text after the colon: the threshold becomes that many
    minutes, in milliseconds truncated to 32 bits, and nothing else changes;
    when the product fits, the STATUS line reads the minutes back.
   */
  function SetTime(s: State, arg: seq<Octet>): (r: Step)
    ensures r.s == s.(alarm := s.alarm.(umbral := r.s.alarm.umbral))
    ensures r.s.alarm.umbral == (Decimal.Atoi(arg) * MS_PER_MINUTE) % 0x1_0000_0000
    ensures |r.out| == 1
    ensures Decimal.Atoi(arg) * MS_PER_MINUTE < 0x1_0000_0000 ==>
      ParseStatus(SerialText(r.out[0])) == Some(StatusInfo(s.alarm.armed, s.alarm.triggered, s.alarm.autoOn, Decimal.Atoi(arg)))
  {
    var m := Decimal.Atoi(arg);
    MinutesBack(m);
    var a1 := s.alarm.(umbral := (m * MS_PER_MINUTE) % 0x1_0000_0000);
    Step(s.(alarm := a1), [EnviarEstadoSerial(a1)])
  }

  /**
    SET_PASS with its four characters: a password that differs somewhere
    replaces the old one and is persisted; the same password changes
    nothing and sends nothing.
   */
  function SetPass(s: State, p: Code): (r: Step)
    ensures p != s.contrasena ==>
      r.s == s.(contrasena := p) && r.out == [SavePass(p), Event("CONTRASENA_ACTUALIZADA_DESDE_SOFTWARE")]
    ensures p == s.contrasena ==> r == Step(s, [])
  {
    if !Matches(p, s.contrasena) then
      Step(s.(contrasena := p), [SavePass(p), Event("CONTRASENA_ACTUALIZADA_DESDE_SOFTWARE")])
    else Step(s, [])
  }

  /**
    `procesarComandoSerial`.  `buf` is the command buffer the `char*` argument
    points to; its C string ends at the first NUL.  After the leading blanks
    are skipped: GET_STATUS reports; KEY:<c> routes <c> and reports;
    SET_AUTO:<n> sets the switch to n == 1, announces it and reports;
    SET_TIME:<n> sets the threshold to n minutes and reports; SET_PASS:<4>
    replaces and persists the password only when some position differs.
    Anything else is ignored.
   */
  function ProcesarComandoSerial(s: State, buf: seq<Octet>, now: U32): (r: Step)
    ensures r.s.contrasena != s.contrasena ==> SavePass(r.s.contrasena) in r.out
    ensures !StartsWith(CText(Trim(buf)), "KEY:") ==>
      r.s == s.(alarm := s.alarm.(autoOn := r.s.alarm.autoOn, umbral := r.s.alarm.umbral), contrasena := r.s.contrasena)
    ensures StartsWith(CText(Trim(buf)), "KEY:") ==> |r.out| > 0 && r.out[|r.out| - 1] == EnviarEstadoSerial(r.s.alarm)
  {
    var b := Trim(buf);
    var t := CText(b);
    if t != "GET_STATUS" && StartsWith(t, "KEY:") then ProcesarTecla(s, At(b, 4), now)
    else Ajustar(s, b, t)
  }
}
