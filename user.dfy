/** Registration and profile update of `UserService`: required fields, the
    password policy, CPF/CNPJ validity, uniqueness of CPF, CNPJ and e-mail,
    and results that never carry the password. */
module UserService {
  import opened Wrappers

  const MissingFields := "Campos obrigatórios faltando."
  const MissingDocument := "CPF ou CNPJ é obrigatório."
  const WeakPassword := "A senha deve conter pelo menos 8 caracteres, incluindo uma letra maiúscula, uma letra minúscula, um número e um caractere especial."
  const InvalidCpf := "CPF inválido."
  const TakenCpf := "CPF já cadastrado."
  const InvalidCnpj := "CNPJ inválido."
  const TakenCnpj := "CNPJ já cadastrado."
  const TakenEmail := "Email já cadastrado."
  const NotFound := "Usuário não encontrado."
  const WeakNewPassword := "A nova senha não atende aos critérios de segurança."
  const CpfOfOther := "CPF já cadastrado por outro usuário."
  const CnpjOfOther := "CNPJ já cadastrado por outro usuário."
  const EmailOfOther := "Email já cadastrado por outro usuário."
  /** What the database answers when a write would repeat a unique CPF, CNPJ
      or e-mail (Prisma's P2002). */
  const UniqueConstraintFailed := "Unique constraint failed"

  /** The document helpers and the password hash, which the model takes as
      given: `isCPF`, `isCNPJ`, `formatToCPF`, `formatToCNPJ`, `bcrypt.hash`. */
  datatype Lib = Lib(
    isCpf: string -> bool,
    isCnpj: string -> bool,
    formatCpf: string -> string,
    formatCnpj: string -> string,
    hash: string -> string)

  datatype User = User(
    id: string,
    name: string,
    phone: string,
    email: string,
    password: string,
    role: string,
    cpf: Option<string>,
    cnpj: Option<string>,
    img: Option<string>,
    ccir: Option<string>,
    answers: Option<(string, string, string)>)

  /** A user as the service returns it: every field but the password. */
  datatype PublicUser = PublicUser(
    id: string,
    name: string,
    phone: string,
    email: string,
    role: string,
    cpf: Option<string>,
    cnpj: Option<string>,
    img: Option<string>,
    ccir: Option<string>,
    answers: Option<(string, string, string)>)

  /** The body of `create`; an absent text field is the empty string. */
  datatype Registration = Registration(
    name: string,
    phone: string,
    email: string,
    password: string,
    role: string,
    cpf: string,
    cnpj: string,
    ccir: string,
    answers: Option<(string, string, string)>)

  /** The body of `update`: `None` is an absent field, `Some("")` a field sent
      empty. */
  datatype Changes = Changes(
    name: Option<string>,
    phone: Option<string>,
    email: Option<string>,
    password: Option<string>,
    role: Option<string>,
    cpf: Option<string>,
    cnpj: Option<string>,
    ccir: Option<string>)

  /* ---------------- the password policy ---------------- */

  predicate IsLower(c: char) { 'a' <= c <= 'z' }
  predicate IsUpper(c: char) { 'A' <= c <= 'Z' }
  predicate IsDigit(c: char) { '0' <= c <= '9' }

  /** `[\W_]`: anything but an ASCII letter or digit. */
  predicate IsSpecial(c: char) { !IsLower(c) && !IsUpper(c) && !IsDigit(c) }

  /** The characters `.` does not match. */
  predicate IsLineTerminator(c: char) {
    c == '\n' || c == '\r' || c == '\U{2028}' || c == '\U{2029}'
  }

  /** The policy in words: at least eight characters on one line, with a
      lowercase letter, an uppercase letter, a digit and a special character. */
  predicate StrongPassword(p: string) {
    |p| >= 8
    && (forall k :: 0 <= k < |p| ==> !IsLineTerminator(p[k]))
    && (exists k :: 0 <= k < |p| && IsLower(p[k]))
    && (exists k :: 0 <= k < |p| && IsUpper(p[k]))
    && (exists k :: 0 <= k < |p| && IsDigit(p[k]))
    && (exists k :: 0 <= k < |p| && IsSpecial(p[k]))
  }

  /** `(?=.*X)` at the start: some character satisfies `X` and no line
      terminator comes before it. */
  predicate Ahead(p: string, x: char -> bool) {
    exists k :: 0 <= k < |p| && x(p[k]) && forall j :: 0 <= j < k ==> !IsLineTerminator(p[j])
  }

  /** `/^(?=.*[a-z])(?=.*[A-Z])(?=.*\d)(?=.*[\W_]).{8,}$/.test(p)`, read
      construct by construct. */
  predicate PasswordRegex(p: string) {
    Ahead(p, IsLower) && Ahead(p, IsUpper) && Ahead(p, IsDigit) && Ahead(p, IsSpecial)
    && |p| >= 8 && forall k :: 0 <= k < |p| ==> !IsLineTerminator(p[k])
  }

  /** The regular expression accepts exactly the passwords of the policy. */
  lemma {:induction false} RegexIsPolicy(p: string)
    ensures PasswordRegex(p) <==> StrongPassword(p)
  {
    if StrongPassword(p) {
      var a :| 0 <= a < |p| && IsLower(p[a]);
      var b :| 0 <= b < |p| && IsUpper(p[b]);
      var c :| 0 <= c < |p| && IsDigit(p[c]);
      var d :| 0 <= d < |p| && IsSpecial(p[d]);
      assert IsLower(p[a]) && forall j :: 0 <= j < a ==> !IsLineTerminator(p[j]);
      assert IsUpper(p[b]) && forall j :: 0 <= j < b ==> !IsLineTerminator(p[j]);
      assert IsDigit(p[c]) && forall j :: 0 <= j < c ==> !IsLineTerminator(p[j]);
      assert IsSpecial(p[d]) && forall j :: 0 <= j < d ==> !IsLineTerminator(p[j]);
    }
  }

  /** The passwords of the service's tests: `Strong@123` passes, `fraca`
      does not. */
  lemma PolicyExamples()
    ensures StrongPassword("Strong@123")
    ensures !StrongPassword("fraca")
  {
    var p := "Strong@123";
    assert IsUpper(p[0]) && IsLower(p[1]) && IsSpecial(p[6]) && IsDigit(p[7]);
  }

  /* ---------------- the table ---------------- */

  /** The unique columns: ids, e-mails, and the CPFs and CNPJs present. */
  predicate WellFormed(users: seq<User>) {
    forall i, j :: 0 <= i < j < |users| ==>
      users[i].id != users[j].id && users[i].email != users[j].email
      && (users[i].cpf.Some? ==> users[i].cpf != users[j].cpf)
      && (users[i].cnpj.Some? ==> users[i].cnpj != users[j].cnpj)
  }

  predicate IsUserId(users: seq<User>, id: string) {
    exists i :: 0 <= i < |users| && users[i].id == id
  }

  /** `findUnique` on a unique column, with the row at `self` left out when
      it is given (`existing.id !== id`). */
  predicate CpfTaken(users: seq<User>, cpf: string, self: Option<nat>) {
    exists i :: 0 <= i < |users| && users[i].cpf == Some(cpf) && (self.Some? ==> i != self.value)
  }

  predicate CnpjTaken(users: seq<User>, cnpj: string, self: Option<nat>) {
    exists i :: 0 <= i < |users| && users[i].cnpj == Some(cnpj) && (self.Some? ==> i != self.value)
  }

  predicate EmailTaken(users: seq<User>, email: string, self: Option<nat>) {
    exists i :: 0 <= i < |users| && users[i].email == email && (self.Some? ==> i != self.value)
  }

  function UserIndex(users: seq<User>, id: string): (r: Option<nat>)
    ensures r.Some? ==> r.value < |users| && users[r.value].id == id
    ensures r.None? <==> !IsUserId(users, id)
  {
    if users == [] then None
    else if users[0].id == id then Some(0)
    else
      var r := UserIndex(users[1..], id);
      assert forall k :: 1 <= k < |users| ==> users[k] == users[1..][k - 1];
      if r.None? then None else Some(r.value + 1)
  }

  /** The `password` field dropped from a row. */
  function WithoutPassword(u: User): (r: PublicUser)
    ensures r.id == u.id && r.email == u.email && r.cpf == u.cpf && r.cnpj == u.cnpj
  {
    PublicUser(u.id, u.name, u.phone, u.email, u.role, u.cpf, u.cnpj, u.img, u.ccir, u.answers)
  }

  /** What the service returns does not depend on the stored password. */
  lemma {:induction false} ResultHidesPassword(u: User, other: string)
    ensures WithoutPassword(u.(password := other)) == WithoutPassword(u)
  {
  }

  /* ---------------- create ---------------- */

  /** The first check `create` fails, in its order: required fields, a
      document, the password policy (before any lookup), a valid and unused
      CPF, a valid and unused CNPJ, an unused e-mail. */
  function CreateError(users: seq<User>, lib: Lib, d: Registration): (r: Option<string>)
    ensures r.None? <==>
      d.name != "" && d.phone != "" && d.email != "" && d.password != "" && d.role != ""
      && (d.cpf != "" || d.cnpj != "") && StrongPassword(d.password)
      && (d.cpf != "" ==> lib.isCpf(d.cpf) && !CpfTaken(users, lib.formatCpf(d.cpf), None))
      && (d.cnpj != "" ==> lib.isCnpj(d.cnpj) && !CnpjTaken(users, lib.formatCnpj(d.cnpj), None))
      && !EmailTaken(users, d.email, None)
    ensures (d.name != "" && d.phone != "" && d.email != "" && d.password != "" && d.role != ""
             && (d.cpf != "" || d.cnpj != "") && !StrongPassword(d.password))
      ==> r == Some(WeakPassword)
  {
    if d.name == "" || d.phone == "" || d.email == "" || d.password == "" || d.role == "" then Some(MissingFields)
    else if d.cpf == "" && d.cnpj == "" then Some(MissingDocument)
    else if !StrongPassword(d.password) then Some(WeakPassword)
    else if d.cpf != "" && !lib.isCpf(d.cpf) then Some(InvalidCpf)
    else if d.cpf != "" && CpfTaken(users, lib.formatCpf(d.cpf), None) then Some(TakenCpf)
    else if d.cnpj != "" && !lib.isCnpj(d.cnpj) then Some(InvalidCnpj)
    else if d.cnpj != "" && CnpjTaken(users, lib.formatCnpj(d.cnpj), None) then Some(TakenCnpj)
    else if EmailTaken(users, d.email, None) then Some(TakenEmail)
    else None
  }

  /** The row `create` writes: the hashed password and answers, formatted
      documents (absent ones null), and a null `ccir` when empty. */
  function NewUser(lib: Lib, d: Registration, id: string, img: Option<string>): (r: User)
    ensures r.password == lib.hash(d.password) && r.email == d.email && r.img == img
    ensures r.cpf == (if d.cpf != "" then Some(lib.formatCpf(d.cpf)) else None)
    ensures r.cnpj == (if d.cnpj != "" then Some(lib.formatCnpj(d.cnpj)) else None)
    ensures r.ccir.None? <==> d.ccir == ""
    ensures r.answers.Some? <==> d.answers.Some?
  {
    User(id, d.name, d.phone, d.email, lib.hash(d.password), d.role,
      if d.cpf != "" then Some(lib.formatCpf(d.cpf)) else None,
      if d.cnpj != "" then Some(lib.formatCnpj(d.cnpj)) else None,
      img,
      if d.ccir != "" then Some(d.ccir) else None,
      if d.answers.Some? then Some((lib.hash(d.answers.value.0), lib.hash(d.answers.value.1), lib.hash(d.answers.value.2)))
      else None)
  }

  /** A registration that passes the checks keeps the unique columns unique. */
  lemma {:induction false} CreateKeepsUnique(users: seq<User>, lib: Lib, d: Registration, id: string, img: Option<string>)
    requires WellFormed(users) && !IsUserId(users, id) && CreateError(users, lib, d).None?
    ensures WellFormed(users + [NewUser(lib, d, id, img)])
  {
    var u := NewUser(lib, d, id, img);
    var after := users + [u];
    forall i, j | 0 <= i < j < |after|
      ensures after[i].id != after[j].id && after[i].email != after[j].email
        && (after[i].cpf.Some? ==> after[i].cpf != after[j].cpf)
        && (after[i].cnpj.Some? ==> after[i].cnpj != after[j].cnpj)
    {
      if j == |users| {
        assert after[i] == users[i] && after[j] == u;
      }
    }
  }

  /* ---------------- update ---------------- */

  /** A field sent non-empty (truthy). */
  predicate Sent(o: Option<string>) {
    o.Some? && o.value != ""
  }

  /** The first check `update` fails for the user at `k`, in its order: a
      sent password must meet the policy; a sent CPF, CNPJ or e-mail that
      differs from the stored one must be valid and not belong to another
      user (the user's own row is left out of the lookup). */
  function UpdateError(users: seq<User>, k: nat, lib: Lib, c: Changes): (r: Option<string>)
    requires k < |users|
    ensures r.None? <==>
      (Sent(c.password) ==> StrongPassword(c.password.value))
      && (Sent(c.cpf) && c.cpf != users[k].cpf ==>
            lib.isCpf(c.cpf.value) && !CpfTaken(users, lib.formatCpf(c.cpf.value), Some(k)))
      && (Sent(c.cnpj) && c.cnpj != users[k].cnpj ==>
            lib.isCnpj(c.cnpj.value) && !CnpjTaken(users, lib.formatCnpj(c.cnpj.value), Some(k)))
      && (Sent(c.email) && c.email.value != users[k].email ==> !EmailTaken(users, c.email.value, Some(k)))
  {
    var u := users[k];
    if Sent(c.password) && !StrongPassword(c.password.value) then Some(WeakNewPassword)
    else if Sent(c.cpf) && c.cpf != u.cpf && !lib.isCpf(c.cpf.value) then Some(InvalidCpf)
    else if Sent(c.cpf) && c.cpf != u.cpf && CpfTaken(users, lib.formatCpf(c.cpf.value), Some(k)) then Some(CpfOfOther)
    else if Sent(c.cnpj) && c.cnpj != u.cnpj && !lib.isCnpj(c.cnpj.value) then Some(InvalidCnpj)
    else if Sent(c.cnpj) && c.cnpj != u.cnpj && CnpjTaken(users, lib.formatCnpj(c.cnpj.value), Some(k)) then Some(CnpjOfOther)
    else if Sent(c.email) && c.email.value != u.email && EmailTaken(users, c.email.value, Some(k)) then Some(EmailOfOther)
    else None
  }

  function Else<T>(o: Option<T>, d: T): T {
    if o.Some? then o.value else d
  }

  /** The new CPF: formatted when it was sent and differs, otherwise whatever
      the body holds (`{ ...data }`), otherwise the stored one. */
  function NewCpf(u: User, lib: Lib, c: Changes): Option<string> {
    if Sent(c.cpf) && c.cpf != u.cpf then Some(lib.formatCpf(c.cpf.value))
    else if c.cpf.Some? then c.cpf else u.cpf
  }

  function NewCnpj(u: User, lib: Lib, c: Changes): Option<string> {
    if Sent(c.cnpj) && c.cnpj != u.cnpj then Some(lib.formatCnpj(c.cnpj.value))
    else if c.cnpj.Some? then c.cnpj else u.cnpj
  }

  /** The row `update` writes, as the code is written: every field of the
      body is copied, a non-empty password is replaced by its hash, but an
      empty one is copied as it is. */
  function UpdatedAsWritten(u: User, lib: Lib, c: Changes, img: Option<string>): (r: User)
    ensures r.password == (if Sent(c.password) then lib.hash(c.password.value) else Else(c.password, u.password))
  {
    User(u.id, Else(c.name, u.name), Else(c.phone, u.phone), Else(c.email, u.email),
      if Sent(c.password) then lib.hash(c.password.value) else Else(c.password, u.password),
      Else(c.role, u.role), NewCpf(u, lib, c), NewCnpj(u, lib, c),
      if img.Some? then img else u.img,
      if c.ccir.Some? then c.ccir else u.ccir,
      u.answers)
  }

  /** As written, sending an empty password skips the policy and stores the
      empty string in place of the hash. */
  lemma {:induction false} EmptyPasswordStoredAsWritten(u: User, lib: Lib)
    ensures var c := Changes(None, None, None, Some(""), None, None, None, None);
      !Sent(c.password) && !StrongPassword("")
      && UpdatedAsWritten(u, lib, c, None).password == ""
  {
  }

  /** The row `update` writes: every field of the body is copied, except that
      a sent CPF or CNPJ that differs is stored formatted, a non-empty
      password is stored hashed, and an empty password leaves the stored
      hash alone; an uploaded image replaces the stored one. */
  function Updated(u: User, lib: Lib, c: Changes, img: Option<string>): (r: User)
    ensures r.id == u.id && r.answers == u.answers
    ensures r.password == (if Sent(c.password) then lib.hash(c.password.value) else u.password)
    ensures r.email == Else(c.email, u.email) && r.name == Else(c.name, u.name)
    ensures r.phone == Else(c.phone, u.phone) && r.role == Else(c.role, u.role)
    ensures Sent(c.cpf) && c.cpf != u.cpf ==> r.cpf == Some(lib.formatCpf(c.cpf.value))
    ensures c.cpf.None? ==> r.cpf == u.cpf
    ensures c.cnpj.None? ==> r.cnpj == u.cnpj
    ensures r.img == (if img.Some? then img else u.img)
  {
    UpdatedAsWritten(u, lib, c, img).(password := if Sent(c.password) then lib.hash(c.password.value) else u.password)
  }

  /** After an accepted update the stored password is the old one or the
      hash of a password that meets the policy. */
  lemma {:induction false} PasswordStaysHashed(users: seq<User>, k: nat, lib: Lib, c: Changes, img: Option<string>)
    requires k < |users| && UpdateError(users, k, lib, c).None?
    ensures var p := Updated(users[k], lib, c, img).password;
      p == users[k].password || exists s :: StrongPassword(s) && p == lib.hash(s)
  {
    if Sent(c.password) {
      assert StrongPassword(c.password.value);
    }
  }

  /** Sending the user's own documents again, unformatted, is accepted: the
      uniqueness lookups leave the user's own row out. */
  lemma {:induction false} OwnDocumentsAccepted(users: seq<User>, k: nat, lib: Lib, cpf: string, cnpj: string)
    requires WellFormed(users) && k < |users|
    requires cpf != "" && lib.isCpf(cpf) && users[k].cpf == Some(lib.formatCpf(cpf))
    requires cnpj != "" && lib.isCnpj(cnpj) && users[k].cnpj == Some(lib.formatCnpj(cnpj))
    ensures UpdateError(users, k, lib, Changes(None, None, Some(users[k].email), None, None, Some(cpf), Some(cnpj), None)).None?
  {
  }

  /** The written row repeats another user's e-mail, CPF or CNPJ. */
  predicate Clashes(users: seq<User>, k: nat, row: User) {
    exists i :: 0 <= i < |users| && i != k
      && (users[i].email == row.email
          || (row.cpf.Some? && users[i].cpf == row.cpf)
          || (row.cnpj.Some? && users[i].cnpj == row.cnpj))
  }

  /* ---------------- the service ---------------- */

  class UserStore {
    var users: seq<User>

    ghost predicate Valid()
      reads this
    {
      WellFormed(users)
    }

    constructor ()
      ensures users == [] && Valid()
    {
      users := [];
    }

    /** `create`: the checks, then the new row; the result has no password. */
    method Create(lib: Lib, d: Registration, newId: string, img: Option<string>) returns (r: Result<PublicUser, string>)
      requires Valid() && !IsUserId(users, newId)
      modifies this
      ensures Valid()
      ensures var e := CreateError(old(users), lib, d);
        if e.Some? then r == Err(e.value) && users == old(users)
        else r == Ok(WithoutPassword(NewUser(lib, d, newId, img))) && users == old(users) + [NewUser(lib, d, newId, img)]
    {
      var e := CreateError(users, lib, d);
      if e.Some? {
        return Err(e.value);
      }
      var u := NewUser(lib, d, newId, img);
      CreateKeepsUnique(users, lib, d, newId, img);
      users := users + [u];
      r := Ok(WithoutPassword(u));
    }

    /** `update`: an unknown id, then the checks, then one write of the
      merged row, which the database refuses when it repeats another user's
      e-mail, CPF or CNPJ; the result has no password. */
    method Update(lib: Lib, id: string, c: Changes, img: Option<string>) returns (r: Result<PublicUser, string>)
      requires Valid()
      modifies this
      ensures Valid()
      ensures var k := UserIndex(old(users), id);
        if k.None? then r == Err(NotFound) && users == old(users)
        else if UpdateError(old(users), k.value, lib, c).Some? then
          r == Err(UpdateError(old(users), k.value, lib, c).value) && users == old(users)
        else if Clashes(old(users), k.value, Updated(old(users)[k.value], lib, c, img)) then
          r == Err(UniqueConstraintFailed) && users == old(users)
        else
          var row := Updated(old(users)[k.value], lib, c, img);
          r == Ok(WithoutPassword(row)) && users == old(users)[k.value := row]
    {
      var k := UserIndex(users, id);
      if k.None? {
        return Err(NotFound);
      }
      var e := UpdateError(users, k.value, lib, c);
      if e.Some? {
        return Err(e.value);
      }
      var row := Updated(users[k.value], lib, c, img);
      if Clashes(users, k.value, row) {
        return Err(UniqueConstraintFailed);
      }
      ghost var before := users;
      users := users[k.value := row];
      forall i, j | 0 <= i < j < |users|
        ensures users[i].id != users[j].id && users[i].email != users[j].email
          && (users[i].cpf.Some? ==> users[i].cpf != users[j].cpf)
          && (users[i].cnpj.Some? ==> users[i].cnpj != users[j].cnpj)
      {
        if i == k.value || j == k.value {
          var o := if i == k.value then j else i;
          assert users[o] == before[o];
        }
      }
      r := Ok(WithoutPassword(row));
    }
  }
}
