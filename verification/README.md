# Security state engine of the Arduino alarm, in Dafny

This project models the security state engine of an Arduino intrusion alarm. The engine covers:

- arming and disarming with a 4-digit password;
- the two-phase password change, with its 30-second lockout that forces the alarm armed and triggered;
- motion latching and auto-arming after inactivity;
- the line protocol to the console (`KEY:`, `SET_AUTO:`, `SET_TIME:`, `SET_PASS:`, `GET_STATUS`; `STATUS`, `EVENT` and `NEW_PASS` lines).

Two versions of the engine exist in the repository, and both are modelled.

- **The sketch** (`Arduino/funciones.h`). Its globals are one immutable record, `Sketch.State`. Every handler is a pure function from that record and its input to `Sketch.Step`. The input is a key, a motion reading, a command buffer, or `now` for each `millis()`. `Step` holds the new record and the list of effects the handler sends out: events, status reports, the new password line, and requests to persist the password.
- **The library** (`Docs/SistemaAlarma/`). Each member of `GestorContrasena` becomes a pure function on the object's fields. `GestorEEPROM` works over an abstract address-to-byte map. `GestorComunicacion` contributes command reading and the STATUS line.

Modelling choices:

- C `char` is an 8-bit `Octet`.
- Counters declared `byte` wrap at 256.
- `millis()` and every stamp are 32-bit unsigned, and `now - since` is taken modulo 2^32. Lockout expiry is therefore modelled across a wrap of the clock too.

The modules:

| module | file | what it holds |
|---|---|---|
| `Common` | common.dfy | octets, bytes, 32-bit time, 4-character codes, the comparison loop, the countdown arithmetic |
| `Decimal` | decimal.dfy | the digits `Serial.print` writes for a number, `atoi` on digit text |
| `Protocol` | protocol.dfy | `leerComando`, blank trimming, the C-string view of a buffer, the STATUS/EVENT/NEW_PASS lines and a reader for STATUS lines |
| `Eeprom` | eeprom.dfy | `GestorEEPROM` over a byte map |
| `GestorContrasena` | gestor_contrasena.dfy | the library's password manager |
| `GestorLemmas` | gestor_lemmas.dfy | multi-call properties of the password manager, and the overrun finding |
| `Sketch` | sketch.dfy | the sketch's handlers |
| `SketchLemmas` | sketch_lemmas.dfy | command recognition, entry, change and lockout sessions, and an invariant kept by every handler |

## Model

| member | source | states |
|---|---|---|
| Common.Elapsed | Arduino/funciones.h:225 | `millis() - since` in unsigned 32-bit arithmetic is the real distance from `since` to `now`, also when the clock wrapped in between |
| Common.Inc8 | Docs/SistemaAlarma/SistemaAlarma.cpp:282 | `++` on a byte counter adds one below 255 and wraps 255 to 0 |
| Common.Put | Arduino/funciones.h:270 | storing a character at a position of a 4-character buffer sets that position and keeps the other three |
| Common.MatchFrom | Arduino/funciones.h:413-418 | the comparison loop with its early `break` answers true exactly when every position from `i` on is equal |
| Common.Matches | Docs/SistemaAlarma/SistemaAlarma.cpp:274-279 | although the loop stops at the first difference, its verdict is "the two codes are equal", in both directions |
| Common.RemainingSeconds | Arduino/funciones.h:249 | the countdown shows the remaining milliseconds rounded down to whole seconds, never more than the lockout's length in seconds |
| Decimal.ToDecimal | Arduino/funciones.h:106 | `Serial.println` of an unsigned number writes a non-empty run of digits with no leading zero that denotes the number |
| Decimal.LeadingDigits | Arduino/funciones.h:61 | the digits `atoi` consumes are the longest prefix of the text made of digits |
| Decimal.LeadingDigitsOf | Arduino/funciones.h:67 | a digit run followed by a non-digit (or by nothing) is consumed exactly |
| Decimal.AtoiToDecimal | Arduino/funciones.h:67 | `atoi` reads back every number printed in decimal, whatever non-digit follows it |
| Protocol.Trim | Docs/SistemaAlarma/SistemaAlarma.cpp:229 | skipping blanks drops exactly a prefix of spaces and CRs and stops at the first other character |
| Protocol.CText | Docs/SistemaAlarma/SistemaAlarma.cpp:226 | the C string of a buffer is its prefix up to, and excluding, the first NUL |
| Protocol.LineLength | Docs/SistemaAlarma/SistemaAlarma.cpp:224 | `readBytesUntil('\n', buf, k)` stores the bytes before the first newline, at most `k` of them |
| Protocol.LeerComando | Docs/SistemaAlarma/SistemaAlarma.cpp:222-234 | nothing waiting yields no command and consumes nothing; otherwise a command comes out exactly when the stored line is non-empty, and it is that line with its leading blanks skipped; reading resumes right after the newline when the read stopped on one, else right after the stored bytes |
| Protocol.CommandBounded | Docs/SistemaAlarma/SistemaAlarma.cpp:224-226 | a command handed on is at most 31 bytes long and contains no newline |
| Protocol.LineLengthStopsAtNewline | Docs/SistemaAlarma/SistemaAlarma.cpp:224 | a line shorter than the limit, followed by a newline, is read up to that newline |
| Protocol.ReadLine | Docs/SistemaAlarma/SistemaAlarma.cpp:222-234 | a line shorter than 31 bytes ending in a newline is returned trimmed, and reading continues right after the newline |
| Protocol.ParseChoiceOf | Docs/SistemaAlarma/SistemaAlarma.cpp:191-192 | each pair of spellings in the STATUS line ("Activa"/"Inactiva", …) can be told apart by a reader whatever follows |
| Protocol.ParseFieldOf | Docs/SistemaAlarma/SistemaAlarma.cpp:193-196 | a comma-separated field of the STATUS line reads back as the flag it was printed from |
| Protocol.ParseFormatStatus | Docs/SistemaAlarma/SistemaAlarma.cpp:189-199 | every STATUS line reads back as the armed flag, triggered flag, auto-arm switch and minutes it was printed from |
| Protocol.EnviarEstado | Docs/SistemaAlarma/SistemaAlarma.cpp:189-199 | the STATUS line for a threshold in milliseconds reads back as the three flags and the threshold in whole minutes |
| Eeprom.Write | Docs/SistemaAlarma/SistemaAlarma.cpp:64 | writing a cell changes that cell and no other |
| Eeprom.GuardarContrasena | Docs/SistemaAlarma/SistemaAlarma.cpp:62-67 | the four characters land at addresses 0..3 and the marker 0xAB at address 4; cells past 4 are untouched |
| Eeprom.CargarContrasena | Docs/SistemaAlarma/SistemaAlarma.h:121-130 | true exactly when the marker is present, and then the password is the four bytes at addresses 0..3 and nothing is written; without it, the password is "1234" and is saved with the marker |
| Eeprom.SaveLoad | Docs/SistemaAlarma/SistemaAlarma.cpp:62-85 | loading after saving `p` yields `p`, reports a valid password and writes nothing |
| Eeprom.FirstLoadThenValid | Docs/SistemaAlarma/SistemaAlarma.cpp:76-83 | a first load without the marker yields "1234" and false, and the next load yields "1234" and true |
| Eeprom.SaveOverwrites | Docs/SistemaAlarma/SistemaAlarma.cpp:62-67 | after two saves, the second password is the one loaded |
| GestorContrasena.Nuevo | Docs/SistemaAlarma/SistemaAlarma.cpp:240-248 | a new object has every counter in range, no lock set and a zeroed password |
| GestorContrasena.SetContrasena | Docs/SistemaAlarma/SistemaAlarma.cpp:250-254 | the password becomes the given one and no other field changes |
| GestorContrasena.AgregarDigito | Docs/SistemaAlarma/SistemaAlarma.cpp:262-269 | below 4 digits, the digit goes to the next position and the count goes up; the call returns true exactly when it completes the fourth digit; at 4 it changes nothing and returns false |
| GestorContrasena.ReiniciarIngreso | Docs/SistemaAlarma/SistemaAlarma.cpp:295-298 | the entry is emptied and nothing else changes |
| GestorContrasena.VerificarContrasena | Docs/SistemaAlarma/SistemaAlarma.cpp:271-293 | returns true exactly when the entered code is the password; success zeroes the failures; a failure counts one more, and the third sets the normal lock stamped `now` and zeroes the count |
| GestorContrasena.VerificarBloqueo | Docs/SistemaAlarma/SistemaAlarma.cpp:312-326 | returns true exactly when a lock is set and 30 s have passed; the change lock is examined first; ending a lock clears only that lock (and the change attempts); otherwise nothing changes |
| GestorContrasena.SegundosBloqueoRestantes | Docs/SistemaAlarma/SistemaAlarma.cpp:328-341 | 0 without an active lock or once it has run out; otherwise the remaining time in whole seconds, rounded down; never above 30 |
| GestorContrasena.SetBloqueo | Docs/SistemaAlarma/SistemaAlarma.cpp:447-454 | setting stamps and raises the change lock; clearing lowers it; the normal lock is never touched |
| GestorContrasena.ResetCambio | Docs/SistemaAlarma/SistemaAlarma.cpp:343-349 | the change state is reset (phase 0, no digits, no attempts, buffers zeroed) and the password, locks, stamp and entry are kept |
| GestorContrasena.IniciarCambio | Docs/SistemaAlarma/SistemaAlarma.cpp:343-349 | starting a change gives phase 0 with no digits and no attempts, keeps the password and both locks, and `estaCambiandoContrasena` then holds |
| GestorContrasena.CancelarCambio | Docs/SistemaAlarma/SistemaAlarma.cpp:427-433 | cancelling resets exactly as starting does, keeps the password, and leaves `estaCambiandoContrasena` true |
| GestorContrasena.ProcesarCambioAsWritten | Docs/SistemaAlarma/SistemaAlarma.cpp:351-425 | the change step exactly as written, without a bound on the count; it returns one of the four documented codes |
| GestorContrasena.ProcesarCambio | Docs/SistemaAlarma/SistemaAlarma.cpp:351-425 | the change step with the count bounded. It returns only 0..3 and keeps the phase in 0..1 and the count in 0..4. The password changes only on return 1, which needs phase 1 with three digits entered; the new password is then saved to the EEPROM and the phase, count and attempts are reset. Return 2 means the change lock is set, stamped `now`, and the session has ended |
| GestorContrasena.FourthCurrentDigit | Docs/SistemaAlarma/SistemaAlarma.cpp:360-396 | the fourth phase-0 digit either moves to phase 1 with the count and attempts zeroed (0), or counts an attempt and then either clears the entry (3) or, as the third, sets and stamps the change lock (2) |
| GestorContrasena.EarlierDigitsCollect | Docs/SistemaAlarma/SistemaAlarma.cpp:355-358 | digits before the fourth are only collected: return 0, attempts and password unchanged, count up by one |
| GestorLemmas.EnterAndVerify | Docs/SistemaAlarma/SistemaAlarma.cpp:262-293 | four digits after a reset fill the entry with exactly those digits; only the fourth reports completion; verification then succeeds exactly for the password |
| GestorLemmas.ThirdFailureLocks | Docs/SistemaAlarma/SistemaAlarma.cpp:281-287 | three failed verifications in a row count 1, 2, then set the normal lock stamped at the third and restart the count |
| GestorLemmas.VerificarBloqueoSettles | Docs/SistemaAlarma/SistemaAlarma.cpp:312-326 | the expiry check reports each lock's end once: a second true needs both locks to have been set, and a third call returns false and changes nothing |
| GestorLemmas.CountdownAgreesWithExpiry | Docs/SistemaAlarma/SistemaAlarma.cpp:312-341 | while the countdown shows a second left no lock ends, and when a lock ends the countdown shows 0 |
| GestorLemmas.BlockedUntilExpiry | Docs/SistemaAlarma/SistemaAlarma.cpp:308-326 | `estaBloqueado` stays true until `verificarBloqueo` ends a lock 30 s after the stamp, and turns false exactly when that call ends the only lock set |
| GestorLemmas.LockNeverEndsEarly | Docs/SistemaAlarma/SistemaAlarma.cpp:314-323 | a lock stamped at `t` is still on at every instant before `t + 30000` and ends from `t + 30000` on |
| GestorLemmas.CurrentPasswordAdvances | Docs/SistemaAlarma/SistemaAlarma.cpp:355-378 | the current password typed in phase 0 moves to phase 1 with count and attempts zeroed, returning 0 four times |
| GestorLemmas.NewPasswordCompletes | Docs/SistemaAlarma/SistemaAlarma.cpp:398-421 | any four characters in phase 1 become the password, are saved, and reset the session; the returns are 0, 0, 0, 1 |
| GestorLemmas.ChangeSession | Docs/SistemaAlarma/SistemaAlarma.cpp:343-425 | start, current password, new password: the returns are seven 0s then 1, and the EEPROM then loads the new password as valid |
| GestorLemmas.WrongAttempt | Docs/SistemaAlarma/SistemaAlarma.cpp:379-396 | a wrong current password below the threshold returns 3, clears the entry and counts one more attempt |
| GestorLemmas.LockingAttempt | Docs/SistemaAlarma/SistemaAlarma.cpp:383-389 | the third wrong current password returns 2 and sets and stamps the change lock, leaving the count at 4 |
| GestorLemmas.ThreeWrongLockChange | Docs/SistemaAlarma/SistemaAlarma.cpp:379-396 | three wrong current passwords return 3, 3, 2; the change lock is then on, the password and EEPROM are unchanged, and the lock ends exactly when 30 s have passed |
| GestorLemmas.CambiandoUntilLocked | Docs/SistemaAlarma/SistemaAlarma.cpp:435-437 | `estaCambiandoContrasena` holds for a new object, and within a session it stays true after every change digit except the one returning 2, the change lock |
| GestorLemmas.ApplyKeepsValid | Docs/SistemaAlarma/SistemaAlarma.h:328-332 | every member function, with the bounded change step `GestorContrasena.ProcesarCambio`, keeps the entry count in 0..4, the phase in 0..1 and the failures below 3 |
| GestorLemmas.RunKeepsValid | Docs/SistemaAlarma/SistemaAlarma.h:389-393 | any sequence of member calls, with the bounded change step, keeps those ranges, so `getFaseCambio` is only 0 or 1 and `getDigitosIngresados` only 0..4 |
| GestorLemmas.PasswordChangesOnlyByDesign | Docs/SistemaAlarma/SistemaAlarma.cpp:402-410 | the password changes only through `setContrasena` or a completed change, and a completed change saves it to the EEPROM |
| GestorLemmas.AsWrittenOverrunsAfterLock | Docs/SistemaAlarma/SistemaAlarma.cpp:355-358 | as written, the digit after the locking attempt pushes the count to 5, outside 0..4; the bounded step ignores it |
| GestorLemmas.AsWrittenOverrunExample | Docs/SistemaAlarma/SistemaAlarma.cpp:355-358 | password "1234", a change started, "0000" three times, then '5': the count is 5 |
| Sketch.EnviarEstadoSerial | Arduino/funciones.h:98-107 | the STATUS line reads back as the armed and triggered flags, the auto-arm switch and the threshold in whole minutes |
| Sketch.RevisarSensores | Arduino/funciones.h:117-130 | motion latches the triggered flag and refreshes the inactivity stamp; the intrusion is announced exactly when motion arrives with the flag clear; nothing else changes |
| Sketch.VerificarAutoActivacion | Arduino/funciones.h:132-153 | when disarmed, with no entry open and more than the threshold since the last activity, the alarm arms, untriggered, restarts the stamp and announces it; otherwise nothing happens |
| Sketch.SolicitarContrasena | Arduino/funciones.h:208-221 | opens an empty entry for the action, keeps the failure count, and changes nothing else |
| Sketch.ManejarComando | Arduino/funciones.h:169-206 | every key refreshes the stamp; 'C' opens a fresh change session exactly when the change lockout is off; 'A' while disarmed and 'D' while armed or triggered open an entry; no alarm flag, lockout or password changes |
| Sketch.VerificarContrasena | Arduino/funciones.h:411-458 | the entry always closes. The password arms for 'A', or disarms and refreshes the stamp otherwise; either way it clears triggered and the failures. A wrong code leaves the alarm alone and counts a failure. CLAVE_INCORRECTA is always sent, and SISTEMA_BLOQUEADO exactly on the third failure, which restarts the count |
| Sketch.ManejarContrasena | Arduino/funciones.h:392-409 | a digit before the fourth goes to the next position and nothing else changes; the fourth closes the entry: if the four typed are the password the alarm is armed for 'A' and disarmed otherwise, untriggered, with the failures cleared; if not, the alarm is untouched, CLAVE_INCORRECTA is sent and a failure is counted; '#' closes the entry, keeping count and failures, and sends INGRESO_CANCELADO; other keys do nothing |
| Sketch.ManejarCambioContrasena | Arduino/funciones.h:267-390 | the password changes only on the fourth phase-1 digit, to the digits entered, saved, announced, with the session closed and reset. '#' closes the session and changes nothing else. The alarm or lockout changes only on the third failure, which stamps the lockout, remembers the armed flag and forces armed and triggered. The entry and the stamp are never touched |
| Sketch.VerificarCambioContrasena | Arduino/funciones.h:223-265 | once 30 s have passed since the stamp the lockout ends, the armed flag returns to its saved value, triggered clears and the attempts reset; before that nothing changes |
| Sketch.SegundosRestantes | Arduino/funciones.h:245-250 | during the lockout the countdown is the remaining time rounded down to whole seconds, at most 30 |
| Sketch.RouteKey | Arduino/funciones.h:50-56 | a key goes to the open change session, else the open entry, else the top level; only the change session changes the password (persisting it) or the lockout (stamped now); it leaves the entry alone, the entry leaves the session alone, and the top level changes neither alarm flag |
| Sketch.ProcesarTecla | Arduino/funciones.h:48-59 | after a routed key, the last line sent is the STATUS line of the resulting state, and a changed password is persisted |
| Sketch.Ajustar | Arduino/funciones.h:60-95 | the non-KEY commands change only the auto-arm switch, the threshold and the password; a changed password is persisted and announced |
| Sketch.SetAuto | Arduino/funciones.h:60-65 | the switch is on exactly when `atoi` reads 1; only the switch changes; the new setting is announced and the STATUS line reads it back |
| Sketch.SetTime | Arduino/funciones.h:66-70 | the threshold becomes the minutes read, in milliseconds truncated to 32 bits, and nothing else changes; when the product fits, the STATUS line reads the minutes back |
| Sketch.SetPass | Arduino/funciones.h:71-95 | four characters that differ from the password somewhere replace it and are persisted and announced; the same four change nothing and send nothing |
| Sketch.ProcesarComandoSerial | Arduino/funciones.h:42-96 | a changed password is always persisted; a non-KEY command changes only the switch, threshold and password; a KEY command ends with the STATUS line |
| SketchLemmas.TrimBlanks | Arduino/funciones.h:43 | skipping spaces and CRs in front of a command leaves exactly the command |
| SketchLemmas.CTextAppend | Arduino/funciones.h:48 | a command's leading characters without NUL are part of its C string, as `strncmp` reads it |
| SketchLemmas.KeyCommand | Arduino/funciones.h:43-59 | `KEY:<c>` after any blanks, whatever follows it, hands `c` to exactly one handler: the change session if open, else the entry if open, else the top level; then the state is reported |
| SketchLemmas.KeyDispatch | Arduino/funciones.h:48-49 | the key routed is the character right after `KEY:` |
| SketchLemmas.SettingsCommand | Arduino/funciones.h:45-60 | after any blanks, a command starting with 'S' goes to the settings commands, never to key routing |
| SketchLemmas.GetStatusCommand | Arduino/funciones.h:45-47 | GET_STATUS, after any blanks and with nothing after it in the C string, sends the STATUS line and changes nothing |
| SketchLemmas.UnknownCommandIgnored | Arduino/funciones.h:42-96 | a command that is none of GET_STATUS, KEY:, SET_AUTO:, SET_TIME: and SET_PASS: changes nothing and sends nothing |
| SketchLemmas.SetPassCommand | Arduino/funciones.h:71-95 | SET_PASS replaces and persists the password exactly when the four characters differ from it; the same password leaves everything unchanged and sends nothing |
| SketchLemmas.SetTimeCommand | Arduino/funciones.h:66-70 | SET_TIME:m, followed by nothing or by a non-digit such as a CR, sets the threshold to m minutes in 32-bit milliseconds and nothing else; the report reads back m when it fits |
| SketchLemmas.SetAutoCommand | Arduino/funciones.h:60-65 | SET_AUTO:n, followed by nothing or by a non-digit, switches auto-arm on exactly for n = 1, changes nothing else and announces the new setting |
| SketchLemmas.EnterCode | Arduino/funciones.h:392-457 | four digits into a fresh entry close it: the password arms or disarms and clears triggered and failures; any other code counts a failure and leaves the alarm alone |
| SketchLemmas.EnterWrongThird | Arduino/funciones.h:436-442 | the third wrong entry in a row sends SISTEMA_BLOQUEADO |
| SketchLemmas.NormalLockoutIsOnlyAMessage | Arduino/funciones.h:439-442 | after SISTEMA_BLOQUEADO, the very next entry with the password is accepted: the normal lockout blocks nothing |
| SketchLemmas.CurrentAccepted | Arduino/funciones.h:276-296 | the current password typed in phase 0 moves the session to phase 1 with count and failures zeroed |
| SketchLemmas.NewAccepted | Arduino/funciones.h:341-378 | any four digits in phase 1 become the password, are persisted and announced, and close the session reset |
| SketchLemmas.ChangeWorkflow | Arduino/funciones.h:172-190 | 'C', the current password, a new one: only the stamp, the password and the closed session differ from the start, and the password is persisted |
| SketchLemmas.CurrentRejected | Arduino/funciones.h:298-338 | a wrong current password counts a failure and clears the entry; the third stamps the lockout, saves the armed flag, forces armed and triggered and closes the session |
| SketchLemmas.LockoutEnds | Arduino/funciones.h:223-244 | the change lockout is still on exactly while less than 30 s have passed, across a wrap of the clock too; at its end the saved armed flag is restored and triggered clears |
| SketchLemmas.LockoutRoundTrip | Arduino/funciones.h:298-322 | three wrong current passwords in a row from a fresh series: the first two keep the session open and the alarm and lockout as they were; the third forces armed and triggered under the lockout; the check 30 s or more later brings the alarm back to its armed flag from before, untriggered, with the password unchanged |
| SketchLemmas.DisarmDuringLockout | Arduino/funciones.h:194-203 | during the change lockout 'C' is refused, but 'D' and the password disarm the alarm the lockout forced on, while the lockout keeps running |
| SketchLemmas.MotionIdempotent | Arduino/funciones.h:117-130 | once triggered, a further motion reading at any instant only refreshes the inactivity stamp: no flag changes and nothing is sent |
| SketchLemmas.AutoArmOnce | Arduino/funciones.h:132-153 | right after auto-arming, auto-arm is not due again |
| SketchLemmas.AutoArmDuringChange | Arduino/funciones.h:133 | auto-arm does not wait for an open change session |
| SketchLemmas.RouteKeepsInv | Arduino/funciones.h:50-56 | a routed key keeps the invariant: at most one of entry and change session open, fewer than four digits pending, failure counts below 3, phase 0 or 1, no open session under the lockout |
| SketchLemmas.ApplyKeepsInv | Arduino/funciones.h:42-96 | each handler — sensors, auto-arm, lockout check, keypad, serial command — keeps the invariant |
| SketchLemmas.RunKeepsInv | Arduino/funciones.h:42-96 | every sequence of stimuli keeps the invariant |
| SketchLemmas.PasswordChangeIsPersisted | Arduino/funciones.h:87-91 | no stimulus changes the password without asking for the new one to be persisted |
| SketchLemmas.LockoutOnlyFromChange | Arduino/funciones.h:301-306 | the change lockout starts only from an open change session, stamped `now`, with the alarm forced armed and triggered |

## Behaviour worth knowing

- **The sketch's normal lockout is only a message.** After three wrong entries the sketch resets the failure count and shows "Bloqueado 10s" through `mostrarMensaje`, which only starts a non-blocking message timer (Arduino/funciones.h:439-442 and 479-487). The next entry is accepted at once (`SketchLemmas.NormalLockoutIsOnlyAMessage`).
- **The library's normal lock is never consulted.** `verificarContrasena` sets `bloqueado` on the third failure (Docs/SistemaAlarma/SistemaAlarma.cpp:281-287), but no member of `GestorContrasena` refuses input while it is set (`GestorContrasena.AgregarDigito`, `GestorContrasena.VerificarContrasena`).
- **Comparisons stop at the first difference.** Both versions leave the comparison loop at the first position that differs (Arduino/funciones.h:413-418, Docs/SistemaAlarma/SistemaAlarma.cpp:274-279). The verdict is code equality (`Common.Matches`).
- **Auto-arm ignores an open change session.** `verificarAutoActivacion` checks only `pidendoContrasena` (Arduino/funciones.h:133; `SketchLemmas.AutoArmDuringChange`).
- **Only 'C' is refused during the change lockout.** A KEY command during the lockout still reaches `manejarComando`, so 'D' plus the password disarms the alarm the lockout forced on, and the lockout keeps running (Arduino/funciones.h:194-203; `SketchLemmas.DisarmDuringLockout`). When the lockout ends, the armed flag goes back to the value saved when the lockout started (Arduino/funciones.h:229; `SketchLemmas.LockoutEnds`). So the alarm is re-armed only if it was armed before the change session.
- **`enviarEstado` takes milliseconds.** Its header comment calls `tiempoInactividad` minutes (Docs/SistemaAlarma/SistemaAlarma.h:230), but the code divides it by 60000 (Docs/SistemaAlarma/SistemaAlarma.cpp:198). The model takes milliseconds (`Protocol.EnviarEstado`).
- **`estaCambiandoContrasena` is true at rest.** It holds whenever the phase is 0 or 1 and fewer than 4 digits are entered (Docs/SistemaAlarma/SistemaAlarma.cpp:435-437). That includes a new object and the state after `cancelarCambioContrasena` (`GestorLemmas.CambiandoUntilLocked`, `GestorContrasena.CancelarCambio`).

## Left out

- PIR pin reads (`SensorPIR::detectarMovimiento`): motion is a boolean input. Only its refresh of `ultimaDeteccion` is kept, inside `Sketch.RevisarSensores`.
- LCD output (`lcd.*`, `mostrarEstado`, `mostrarMensaje`, `mostrandoMensaje`, `GestorDisplay`): presentational only. The countdown value itself is modelled (`Sketch.SegundosRestantes`).
- Buzzer (`sonarBuzzerIntermitente`, `GestorBuzzer`, `digitalWrite(BUZZER_PIN, …)`): hardware output timing.
- `delay(50)` after a KEY command: a pause with no effect on state.
- Serial port I/O: outgoing lines are the `Effect` list. `leerComando` takes the bytes already waiting as a sequence, so `Serial.available()` and read timeouts are not modelled.
- `GestorComunicacion::enviarContrasenaInicial` (the INIT_PASS line) and `enviarEvento` as I/O: each is one line of text. `Protocol.EventLine` and `Protocol.NewPassLine` give their text.
- `guardarContrasenaEEPROM` of the sketch: its body and the sketch's `.ino` (globals, `setup`, `loop`) are not part of this model. The sketch emits a `SavePass` effect where it calls it.
- Calls made by the sketch's loop (in the `.ino`, not modelled): whether `revisarSensores` runs only while armed, and whether `autoActivacionHabilitada` gates auto-arm, are not asserted.
- Keypad keys: the `.ino` reads the keypad, so how a physical key is routed is not part of this model. `SketchLemmas.Stimulus` assumes that a `Keypad` key is routed exactly as a `KEY:` command routes it (`Sketch.RouteKey`).
- Getters (`getContrasena`, `getDigitosIngresados`, `getIntentosFallidos`, `getFaseCambio`, `estaBloqueadoCambioPass`): each is a read of a record field.
- The parameters `alarmaActivadaAntes` of `verificarBloqueo` and `activarAlarma` of `setBloqueo`: the code never uses them.
- The display, EEPROM and communication arguments of `procesarCambioContrasena`: the EEPROM is passed as a map and the lines sent are returned. The display calls are left out.
- `atoi`: only a leading run of decimal digits is read. Leading whitespace, signs, and the board's 16-bit `int` overflow for more than 32767 minutes are not modelled (`Decimal.Atoi`).
- Stores past the end of a 4-character buffer: undefined behaviour in C. They are modelled as leaving the buffer unchanged (`Common.Put`). Only the count they leave behind matters to the finding below.
- The sketch's counters (`cont`, `intentos`, `contNuevaPass`, `intentosCambioPass`) are unbounded naturals, because their declarations are in the `.ino`, which is not part of this model. `SketchLemmas.Inv` shows they stay below 4 or below 3.
- GestorLemmas.LockNeverEndsEarly: stated only for instants that do not wrap the 32-bit clock after the stamp. `SketchLemmas.LockoutEnds` states the sketch's lockout across a wrap.
- GestorLemmas.ApplyKeepsValid: proved with the bounded change step `GestorContrasena.ProcesarCambio`. With `procesarCambioContrasena` as written, a change digit after the change lock takes the entry count to 5, outside 0..4 (the finding below, `GestorLemmas.AsWrittenOverrunsAfterLock`).
- GestorLemmas.RunKeepsValid: holds for sequences of calls that use the bounded change step. For the code as written it fails on the sequence in the finding below.
- GestorContrasena.ProcesarCambioAsWritten: states only the return-code range. It models the code as written, whose overrun is the finding below. The bounded `GestorContrasena.ProcesarCambio` carries the full contract.

## Findings

| source | as written | input that shows it | evidently intended | confidence | as-written member | corrected member |
|---|---|---|---|---|---|---|
| Docs/SistemaAlarma/SistemaAlarma.cpp:355-358 | phase 0 of `procesarCambioContrasena` stores the digit at `contrasenaVerificacion[contIngresado]` and increments the count with no bound; the locking branch (2) leaves the count at 4 | password "1234", `iniciarCambioContrasena`, then "0000" three times (returns 3, 3, 2), then one more digit '5': the store goes to index 4 of a 4-character array and the count becomes 5, against the documented 0..4 of `getDigitosIngresados` | the same `contIngresado < 4` guard as `agregarDigito`: a digit arriving with 4 already entered changes nothing | not executed | GestorLemmas.AsWrittenOverrunsAfterLock | GestorContrasena.ProcesarCambio |
