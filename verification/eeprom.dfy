/**
  `GestorEEPROM`: the password persisted as four bytes at address 0 with an
  integrity marker byte at address 4.  The EEPROM is an abstract map from
  address to byte; an address never written reads as an erased cell.
 */
module Eeprom {
  import opened Common

  const ADDR_PASS: nat := 0
  const ADDR_MAGIC: nat := 4
  const MAGIC_VALUE: Byte := 0xAB

  /** What an erased EEPROM cell reads. */
  const ERASED: Byte := 0xFF

  /** The password stored on first use. */
  const DEFAULT_PASS: Code := "1234"

  datatype Memory = Memory(cells: map<nat, Byte>)

  function Read(m: Memory, addr: nat): Byte {
    if addr in m.cells then m.cells[addr] else ERASED
  }

  function Write(m: Memory, addr: nat, b: Byte): (m': Memory)
    ensures Read(m', addr) == b
    ensures forall a :: a != addr ==> Read(m', a) == Read(m, a)
  {
    Memory(m.cells[addr := b])
  }

  /** `guardarContrasena`: the four characters, then the marker. */
  function GuardarContrasena(m: Memory, p: Code): (m': Memory)
    ensures forall i :: 0 <= i < 4 ==> Read(m', ADDR_PASS + i) == p[i] as int
    ensures Read(m', ADDR_MAGIC) == MAGIC_VALUE
    ensures forall a :: a > ADDR_MAGIC ==> Read(m', a) == Read(m, a)
  {
    var m0 := Write(m, ADDR_PASS, p[0] as int);
    var m1 := Write(m0, ADDR_PASS + 1, p[1] as int);
    var m2 := Write(m1, ADDR_PASS + 2, p[2] as int);
    var m3 := Write(m2, ADDR_PASS + 3, p[3] as int);
    Write(m3, ADDR_MAGIC, MAGIC_VALUE)
  }

  datatype Loaded = Loaded(m: Memory, pass: Code, valid: bool)

  /** The four password cells read back as characters. */
  function StoredCode(m: Memory): Code {
    [Read(m, ADDR_PASS) as char, Read(m, ADDR_PASS + 1) as char,
     Read(m, ADDR_PASS + 2) as char, Read(m, ADDR_PASS + 3) as char]
  }

  /**
    `cargarContrasena`: with the marker present, the stored password and
    true; without it, the default "1234", which is also saved, and false.
   */
  function CargarContrasena(m: Memory): (r: Loaded)
    ensures r.valid <==> Read(m, ADDR_MAGIC) == MAGIC_VALUE
    ensures r.valid ==> r.m == m && forall i :: 0 <= i < 4 ==> r.pass[i] as int == Read(m, ADDR_PASS + i)
    ensures !r.valid ==> r.pass == DEFAULT_PASS && r.m == GuardarContrasena(m, DEFAULT_PASS)
  {
    if Read(m, ADDR_MAGIC) == MAGIC_VALUE then Loaded(m, StoredCode(m), true)
    else
      var m' := GuardarContrasena(m, DEFAULT_PASS);
      Loaded(m', DEFAULT_PASS, false)
  }

  /** Saving and then loading returns the saved password, reported valid, and writes nothing. */
  lemma SaveLoad(m: Memory, p: Code)
    ensures var m' := GuardarContrasena(m, p);
      CargarContrasena(m') == Loaded(m', p, true)
  {
    var m' := GuardarContrasena(m, p);
    var q := StoredCode(m');
    assert forall i :: 0 <= i < 4 ==> q[i] == p[i];
  }

  /** A load without the marker stores the default, so the next load finds it valid. */
  lemma FirstLoadThenValid(m: Memory)
    requires Read(m, ADDR_MAGIC) != MAGIC_VALUE
    ensures var r := CargarContrasena(m);
      && r == Loaded(r.m, DEFAULT_PASS, false)
      && CargarContrasena(r.m) == Loaded(r.m, DEFAULT_PASS, true)
  {
    SaveLoad(m, DEFAULT_PASS);
  }

  /** Saving twice keeps only the second password. */
  lemma SaveOverwrites(m: Memory, p: Code, q: Code)
    ensures CargarContrasena(GuardarContrasena(GuardarContrasena(m, p), q)).pass == q
  {
    SaveLoad(GuardarContrasena(m, p), q);
  }
}
