/** The employee registration form: six fields validated, the password replaced by the
    lowercase hexadecimal text of its SHA-256 digest, a trimmed payload posted, and the form
    cleared when the server accepts it. */
module EmployeeRegistration {
  import opened Wrappers
  import opened Text

  type Byte = b: int | 0 <= b < 256

  /** A SHA-256 digest: 32 bytes. */
  type Digest = s: seq<Byte> | |s| == 32 witness seq(32, _ => 0)

  /** The characters `toString(16)` uses: `0`-`9` and lowercase `a`-`f`. */
  predicate IsHexDigit(c: char) {
    '0' <= c <= '9' || 'a' <= c <= 'f'
  }

  /** A hexadecimal digit as `Number.prototype.toString(16)` writes it. */
  function HexDigit(d: int): (c: char)
    requires 0 <= d < 16
    ensures IsHexDigit(c)
  {
    if d < 10 then ('0' as int + d) as char else ('a' as int + d - 10) as char
  }

  /** The value of a lowercase hexadecimal digit; anything else is not one. */
  function HexValue(c: char): (v: Option<int>)
    ensures v.Some? <==> IsHexDigit(c)
    ensures v.Some? ==> 0 <= v.value < 16 && HexDigit(v.value) == c
  {
    if '0' <= c <= '9' then Some(c as int - '0' as int)
    else if 'a' <= c <= 'f' then Some(c as int - 'a' as int + 10)
    else None
  }

  /** Every digit reads back as its value. */
  lemma HexValueOfDigit(d: int)
    requires 0 <= d < 16
    ensures HexValue(HexDigit(d)) == Some(d)
  {
  }

  /** `n.toString(16)`: base-16 digits, most significant first, no leading zeros. */
  function ToBase16(n: nat): (s: string)
    ensures 1 <= |s|
    ensures n < 16 <==> |s| == 1
    decreases n
  {
    if n < 16 then [HexDigit(n)] else ToBase16(n / 16) + [HexDigit(n % 16)]
  }

  /** `s.padStart(2, '0')`: zeros added in front up to length 2. */
  function PadStart2(s: string): (r: string)
    ensures |r| == if |s| < 2 then 2 else |s|
    ensures r[|r| - |s|..] == s
    ensures forall i :: 0 <= i < |r| - |s| ==> r[i] == '0'
  {
    if |s| >= 2 then s else seq(2 - |s|, _ => '0') + s
  }

  /** The two digits of a byte, high nibble first. */
  function ByteHex(b: Byte): string {
    [HexDigit(b / 16), HexDigit(b % 16)]
  }

  /** `b.toString(16).padStart(2, '0')` is always exactly the two digits of `b`: one digit padded
      below 16, two digits from 16 on. */
  lemma PaddedBase16(b: Byte)
    ensures PadStart2(ToBase16(b)) == ByteHex(b)
  {
    var t := ToBase16(b);
    if b < 16 {
      assert t == [HexDigit(b)];
      assert PadStart2(t) == ['0'] + t;
    } else {
      assert ToBase16(b / 16) == [HexDigit(b / 16)];
    }
  }

  /** The bytes of a digest written as hexadecimal pairs and joined: two digit characters per byte. */
  function Hex(bytes: seq<Byte>): (s: string)
    ensures |s| == 2 * |bytes|
    ensures forall i :: 0 <= i < |s| ==> IsHexDigit(s[i])
  {
    if bytes == [] then [] else ByteHex(bytes[0]) + Hex(bytes[1..])
  }

  /** Byte `i` is written at positions `2i` and `2i + 1`, high nibble first. */
  lemma {:induction false} HexAt(bytes: seq<Byte>, i: int)
    requires 0 <= i < |bytes|
    ensures Hex(bytes)[2 * i] == HexDigit(bytes[i] / 16)
    ensures Hex(bytes)[2 * i + 1] == HexDigit(bytes[i] % 16)
  {
    if i > 0 {
      HexAt(bytes[1..], i - 1);
      assert Hex(bytes) == ByteHex(bytes[0]) + Hex(bytes[1..]);
    }
  }

  /** Reads hexadecimal pairs back into bytes; an odd length or a character that is not a
      lowercase digit gives `None`. */
  function FromHex(s: string): (r: Option<seq<Byte>>)
    ensures r.Some? ==> 2 * |r.value| == |s|
    decreases |s|
  {
    if s == [] then Some([])
    else if |s| == 1 then None
    else
      var hi := HexValue(s[0]);
      var lo := HexValue(s[1]);
      var rest := FromHex(s[2..]);
      if hi.None? || lo.None? || rest.None? then None
      else Some([hi.value * 16 + lo.value] + rest.value)
  }

  /** The hexadecimal text loses nothing: reading it back gives the bytes. */
  lemma {:induction false} HexRoundTrip(bytes: seq<Byte>)
    ensures FromHex(Hex(bytes)) == Some(bytes)
  {
    if bytes != [] {
      var b := bytes[0];
      var s := Hex(bytes);
      HexRoundTrip(bytes[1..]);
      assert s[2..] == Hex(bytes[1..]);
      HexValueOfDigit(b / 16);
      HexValueOfDigit(b % 16);
      assert s[0] == HexDigit(b / 16) && s[1] == HexDigit(b % 16);
      assert [b] + bytes[1..] == bytes;
    }
  }

  /** Different digests never share a hexadecimal text. */
  lemma HexInjective(a: seq<Byte>, b: seq<Byte>)
    requires Hex(a) == Hex(b)
    ensures a == b
  {
    HexRoundTrip(a);
    HexRoundTrip(b);
  }

  /** `hashPassword`, with `sha256` standing for the digest of the password's UTF-8 bytes:
      64 lowercase hexadecimal characters that read back as that digest. */
  function HashPassword(sha256: string -> Digest, pwd: string): (h: string)
    ensures |h| == 64
    ensures forall i :: 0 <= i < |h| ==> HexValue(h[i]).Some?
    ensures FromHex(h) == Some(sha256(pwd))
  {
    var d := sha256(pwd);
    HexRoundTrip(d);
    Hex(d)
  }

  /** The store picker's value, `number | ''`: nothing chosen yet, or a store id. */
  datatype StoreChoice = NoStore | Store(id: int)

  /** `!tiendaId` is false only for a chosen, non-zero store id. */
  predicate StoreChosen(t: StoreChoice) {
    t.Store? && t.id != 0
  }

  /** The error record `validate` builds, one optional message per field. */
  datatype EmployeeErrors = EmployeeErrors(
    nombre: Option<string>, apellido: Option<string>, tiendaId: Option<string>,
    puesto: Option<string>, usuario: Option<string>, contrasena: Option<string>)

  /** The messages `validate` stores. */
  const NombreRequired := "Nombre requerido"
  const ApellidoRequired := "Apellido requerido"
  const TiendaRequired := "Tienda requerida"
  const PuestoRequired := "Puesto requerido"
  const UsuarioRequired := "Usuario requerido"
  const ContrasenaRequired := "Contraseña requerida"

  const NoErrors := EmployeeErrors(None, None, None, None, None, None)

  /** The record `validate` builds: an entry for each blank text, for a store not chosen, and
      for an empty password (not trimmed); none at all exactly when every check passes. */
  function ErrorsOf(nombre: string, apellido: string, tiendaId: StoreChoice, puesto: string, usuario: string, contrasena: string): (e: EmployeeErrors)
    ensures e.nombre.Some? <==> IsBlank(nombre)
    ensures e.apellido.Some? <==> IsBlank(apellido)
    ensures e.tiendaId.Some? <==> !StoreChosen(tiendaId)
    ensures e.puesto.Some? <==> IsBlank(puesto)
    ensures e.usuario.Some? <==> IsBlank(usuario)
    ensures e.contrasena.Some? <==> contrasena == ""
    ensures e == NoErrors <==>
      && !IsBlank(nombre) && !IsBlank(apellido) && StoreChosen(tiendaId)
      && !IsBlank(puesto) && !IsBlank(usuario) && contrasena != ""
  {
    EmployeeErrors(
      if IsBlank(nombre) then Some(NombreRequired) else None,
      if IsBlank(apellido) then Some(ApellidoRequired) else None,
      if StoreChosen(tiendaId) then None else Some(TiendaRequired),
      if IsBlank(puesto) then Some(PuestoRequired) else None,
      if IsBlank(usuario) then Some(UsuarioRequired) else None,
      if contrasena == "" then Some(ContrasenaRequired) else None)
  }

  /** What is posted: trimmed texts, the store id as a number, and the password's hash only. */
  datatype EmployeePayload = EmployeePayload(
    nombre: string, apellido: string, tiendaId: int, puesto: string, usuario: string, contrasenaHash: string)

  /** The payload built from the form's values: the four texts trimmed (so not empty when they
      are not blank), the chosen store id, and the password's hash in place of the password. */
  function Payload(nombre: string, apellido: string, tiendaId: int, puesto: string, usuario: string, contrasenaHash: string): (p: EmployeePayload)
    ensures p.nombre == Trim(nombre) && p.apellido == Trim(apellido) && p.puesto == Trim(puesto) && p.usuario == Trim(usuario)
    ensures !IsBlank(nombre) ==> p.nombre != []
    ensures !IsBlank(apellido) ==> p.apellido != []
    ensures !IsBlank(puesto) ==> p.puesto != []
    ensures !IsBlank(usuario) ==> p.usuario != []
    ensures p.tiendaId == tiendaId && p.contrasenaHash == contrasenaHash
  {
    TrimIsInfix(nombre);
    TrimIsInfix(apellido);
    TrimIsInfix(puesto);
    TrimIsInfix(usuario);
    EmployeePayload(Trim(nombre), Trim(apellido), tiendaId, Trim(puesto), Trim(usuario), contrasenaHash)
  }

  /** How the post ended: accepted (`res.ok`), answered with an error status, or failed in the network. */
  datatype Response = Accepted | Rejected | NetworkError

  class EmployeeRegister {
    var nombre: string
    var apellido: string
    var tiendaId: StoreChoice
    var puesto: string
    var usuario: string
    var contrasena: string
    var errors: EmployeeErrors

    /** The form as first shown: every field empty, nothing chosen, no errors. */
    predicate Cleared()
      reads this
    {
      && nombre == "" && apellido == "" && tiendaId == NoStore
      && puesto == "" && usuario == "" && contrasena == "" && errors == NoErrors
    }

    constructor ()
      ensures Cleared()
    {
      nombre, apellido, tiendaId := "", "", NoStore;
      puesto, usuario, contrasena := "", "", "";
      errors := NoErrors;
    }

    /** What `validate` accepts: four texts not blank, a store chosen, a non-empty password
        (checked as typed, not trimmed). */
    predicate Acceptable()
      reads this
    {
      && !IsBlank(nombre) && !IsBlank(apellido) && StoreChosen(tiendaId)
      && !IsBlank(puesto) && !IsBlank(usuario) && contrasena != ""
    }

    /** `validate`: each check that fails sets its field's message; valid exactly when none did. */
    method Validate() returns (ok: bool)
      modifies this`errors
      ensures errors == ErrorsOf(nombre, apellido, tiendaId, puesto, usuario, contrasena)
      ensures ok <==> errors == NoErrors
      ensures ok <==> Acceptable()
    {
      var e := NoErrors;
      if IsBlank(nombre) { e := e.(nombre := Some(NombreRequired)); }
      if IsBlank(apellido) { e := e.(apellido := Some(ApellidoRequired)); }
      if !StoreChosen(tiendaId) { e := e.(tiendaId := Some(TiendaRequired)); }
      if IsBlank(puesto) { e := e.(puesto := Some(PuestoRequired)); }
      if IsBlank(usuario) { e := e.(usuario := Some(UsuarioRequired)); }
      if contrasena == "" { e := e.(contrasena := Some(ContrasenaRequired)); }
      errors := e;
      ok := e == NoErrors;
    }

    /** `handleSubmit`: the record of `validate` is stored either way (the reset stores the
        empty record, which is what `validate` built); an invalid form posts nothing and keeps
        its fields; a valid one posts the payload, whose password field is the hash of the
        password, and only an accepted post clears the form. */
    method Submit(sha256: string -> Digest, response: Response) returns (sent: Option<EmployeePayload>)
      modifies this
      ensures sent.Some? <==> old(Acceptable())
      ensures sent.Some? ==> sent.value == Payload(
        old(nombre), old(apellido), old(tiendaId).id, old(puesto), old(usuario), HashPassword(sha256, old(contrasena)))
      ensures sent.Some? && response == Accepted ==> Cleared()
      ensures !(sent.Some? && response == Accepted) ==>
        && nombre == old(nombre) && apellido == old(apellido) && tiendaId == old(tiendaId)
        && puesto == old(puesto) && usuario == old(usuario) && contrasena == old(contrasena)
      ensures errors == ErrorsOf(old(nombre), old(apellido), old(tiendaId), old(puesto), old(usuario), old(contrasena))
      ensures errors == NoErrors <==> sent.Some?
    {
      var ok := Validate();
      if !ok {
        return None;
      }
      var contrasenaHash := HashPassword(sha256, contrasena);
      sent := Some(Payload(nombre, apellido, tiendaId.id, puesto, usuario, contrasenaHash));
      if response == Accepted {
        nombre, apellido, tiendaId := "", "", NoStore;
        puesto, usuario, contrasena := "", "", "";
        errors := NoErrors;
      }
    }
  }
}
