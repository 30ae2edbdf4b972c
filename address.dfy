/** The address book of `AddressService`: each user's delivery addresses,
    of which at most one is the user's default. */
module AddressService {
  import opened Wrappers

  const UserNotFound := "Usuário não encontrado."
  const AddressNotFound := "Endereço não encontrado."
  const DefaultNotDeletable :=
    "Não é possível deletar o endereço padrão. Por favor, defina outro endereço como padrão antes de excluir."
  const NotUsersAddress := "Endereço não encontrado para este usuário."

  /** The text columns of an address. */
  datatype Field = Addressee | PhoneNumberAddressee | Alias | Street | Number
                 | Complement | ReferencePoint | Cep | Uf | City

  /** A row of the address table. */
  datatype Address = Address(id: string, userId: string, fields: map<Field, string>, isDefault: bool)

  /** The body of `addAddress`: its text fields and whether its `default`
      is truthy. */
  datatype NewAddress = NewAddress(fields: map<Field, string>, wantsDefault: bool)

  /** The body of `updateAddress`: the columns it names, `userId` among them. */
  datatype Patch = Patch(userId: Option<string>, fields: map<Field, string>, isDefault: Option<bool>)

  /* ---------------- the table ---------------- */

  predicate DistinctIds(rows: seq<Address>) {
    forall i, j :: 0 <= i < j < |rows| ==> rows[i].id != rows[j].id
  }

  /** No user has two default addresses. */
  predicate SingleDefaults(rows: seq<Address>) {
    forall i, j :: 0 <= i < j < |rows| && rows[i].isDefault && rows[j].isDefault ==> rows[i].userId != rows[j].userId
  }

  predicate WellFormed(rows: seq<Address>) {
    DistinctIds(rows) && SingleDefaults(rows)
  }

  function Ids(rows: seq<Address>): (r: set<string>)
    ensures forall i :: 0 <= i < |rows| ==> rows[i].id in r
    ensures forall id :: id in r ==> exists i :: 0 <= i < |rows| && rows[i].id == id
  {
    set i | 0 <= i < |rows| :: rows[i].id
  }

  /** The user's addresses in table order (`where: { userId }`). */
  function Owned(rows: seq<Address>, user: string): (r: seq<Address>)
    ensures |r| <= |rows|
  {
    if rows == [] then []
    else Owned(rows[..|rows| - 1], user) + (if rows[|rows| - 1].userId == user then [rows[|rows| - 1]] else [])
  }

  /** A user's addresses are exactly the rows that belong to the user. */
  lemma {:induction false} OwnedMember(rows: seq<Address>, user: string, a: Address)
    ensures a in Owned(rows, user) <==> a in rows && a.userId == user
  {
    if rows != [] {
      var init := rows[..|rows| - 1];
      OwnedMember(init, user, a);
      assert rows == init + [rows[|rows| - 1]];
    }
  }

  /** A user without addresses owns no row. */
  lemma {:induction false} OwnedEmpty(rows: seq<Address>, user: string)
    ensures Owned(rows, user) == [] <==> forall i :: 0 <= i < |rows| ==> rows[i].userId != user
  {
    if rows != [] {
      var init := rows[..|rows| - 1];
      OwnedEmpty(init, user);
      assert forall i :: 0 <= i < |init| ==> init[i] == rows[i];
    }
  }

  /** The position of the row with the given id. */
  function IndexOf(rows: seq<Address>, id: string): (r: Option<nat>)
    ensures r.Some? ==> r.value < |rows| && rows[r.value].id == id
    ensures r.None? <==> id !in Ids(rows)
  {
    if rows == [] then None
    else if rows[0].id == id then Some(0)
    else
      var r := IndexOf(rows[1..], id);
      assert forall k :: 1 <= k < |rows| ==> rows[k] == rows[1..][k - 1];
      if r.None? then None else Some(r.value + 1)
  }

  /** The first default address of the user (`findFirst` with
      `default: true`). */
  function DefaultOf(rows: seq<Address>, user: string): (r: Option<Address>)
    ensures r.Some? ==> r.value in rows && r.value.userId == user && r.value.isDefault
    ensures r.None? <==> forall i :: 0 <= i < |rows| ==> !(rows[i].userId == user && rows[i].isDefault)
  {
    if rows == [] then None
    else if rows[0].userId == user && rows[0].isDefault then Some(rows[0])
    else
      assert forall k :: 1 <= k < |rows| ==> rows[k] == rows[1..][k - 1];
      DefaultOf(rows[1..], user)
  }

  /** In a well-formed table a default address of the user is the one
      `getDefaultAddress` returns. */
  lemma {:induction false} DefaultIsUnique(rows: seq<Address>, user: string, k: nat)
    requires SingleDefaults(rows)
    requires k < |rows| && rows[k].userId == user && rows[k].isDefault
    ensures DefaultOf(rows, user) == Some(rows[k])
  {
    if !(rows[0].userId == user && rows[0].isDefault) {
      assert SingleDefaults(rows[1..]) by {
        forall i, j | 0 <= i < j < |rows| - 1 && rows[1..][i].isDefault && rows[1..][j].isDefault
          ensures rows[1..][i].userId != rows[1..][j].userId
        {
          assert rows[1..][i] == rows[i + 1] && rows[1..][j] == rows[j + 1];
        }
      }
      assert rows[1..][k - 1] == rows[k];
      DefaultIsUnique(rows[1..], user, k - 1);
    }
  }

  /** `updateMany({ where: { userId }, data: { default: false } })`: the
      user's addresses lose their default mark and nothing else changes. */
  function Cleared(rows: seq<Address>, user: string): (r: seq<Address>)
    ensures |r| == |rows|
    ensures forall i :: 0 <= i < |rows| ==>
      r[i].id == rows[i].id && r[i].userId == rows[i].userId && r[i].fields == rows[i].fields
      && (r[i].isDefault <==> rows[i].isDefault && rows[i].userId != user)
  {
    seq(|rows|, i requires 0 <= i < |rows| => if rows[i].userId == user then rows[i].(isDefault := false) else rows[i])
  }

  /** Clearing leaves the user without a default and keeps the table well
      formed. */
  lemma {:induction false} ClearedSpec(rows: seq<Address>, user: string)
    requires WellFormed(rows)
    ensures WellFormed(Cleared(rows, user))
    ensures DefaultOf(Cleared(rows, user), user).None?
    ensures Ids(Cleared(rows, user)) == Ids(rows)
  {
    var c := Cleared(rows, user);
    assert forall i :: 0 <= i < |c| ==> c[i].id == rows[i].id;
  }

  /** Appending a new address whose id is fresh keeps the table well formed,
      when it is not a default or the user has none. */
  lemma {:induction false} AppendSpec(rows: seq<Address>, a: Address)
    requires WellFormed(rows) && a.id !in Ids(rows)
    requires a.isDefault ==> DefaultOf(rows, a.userId).None?
    ensures WellFormed(rows + [a])
  {
  }

  /** Replacing the row at `k` by one with the same id keeps the table well
      formed, when the new row is not a default or its user has no other. */
  lemma {:induction false} ReplaceSpec(rows: seq<Address>, k: nat, a: Address)
    requires WellFormed(rows) && k < |rows| && a.id == rows[k].id
    requires a.isDefault ==> forall i :: 0 <= i < |rows| && i != k ==> !(rows[i].isDefault && rows[i].userId == a.userId)
    ensures WellFormed(rows[k := a])
  {
  }

  /** Removing a row keeps the table well formed. */
  lemma {:induction false} RemoveSpec(rows: seq<Address>, k: nat)
    requires WellFormed(rows) && k < |rows|
    ensures WellFormed(rows[..k] + rows[k + 1..])
    ensures Ids(rows[..k] + rows[k + 1..]) == Ids(rows) - {rows[k].id}
  {
    var r := rows[..k] + rows[k + 1..];
    RemoveIndexing(rows, k, r);
    RemoveWellFormed(rows, k, r);
    RemoveIds(rows, k, r);
  }

  /** Where the rows of a table with row `k` deleted come from. */
  predicate RemovedAt(rows: seq<Address>, k: nat, r: seq<Address>) {
    k < |rows| && |r| == |rows| - 1 && forall i :: 0 <= i < |r| ==> r[i] == rows[if i < k then i else i + 1]
  }

  lemma {:induction false} RemoveIndexing(rows: seq<Address>, k: nat, r: seq<Address>)
    requires k < |rows| && r == rows[..k] + rows[k + 1..]
    ensures RemovedAt(rows, k, r)
  {
  }

  lemma {:induction false} RemoveWellFormed(rows: seq<Address>, k: nat, r: seq<Address>)
    requires WellFormed(rows) && RemovedAt(rows, k, r)
    ensures WellFormed(r)
  {
    forall i, j | 0 <= i < j < |r| ensures r[i].id != r[j].id {
      assert r[i] == rows[if i < k then i else i + 1] && r[j] == rows[if j < k then j else j + 1];
    }
    forall i, j | 0 <= i < j < |r| && r[i].userId == r[j].userId ensures !(r[i].isDefault && r[j].isDefault) {
      assert r[i] == rows[if i < k then i else i + 1] && r[j] == rows[if j < k then j else j + 1];
    }
  }

  lemma {:induction false} RemoveIds(rows: seq<Address>, k: nat, r: seq<Address>)
    requires DistinctIds(rows) && RemovedAt(rows, k, r)
    ensures Ids(r) == Ids(rows) - {rows[k].id}
  {
    RemovedIdsLeft(rows, k, r);
    RemovedIdsStay(rows, k, r);
  }

  /** No id of the remaining rows is the deleted one. */
  lemma {:induction false} RemovedIdsLeft(rows: seq<Address>, k: nat, r: seq<Address>)
    requires DistinctIds(rows) && RemovedAt(rows, k, r)
    ensures Ids(r) <= Ids(rows) - {rows[k].id}
  {
    forall id | id in Ids(r) ensures id in Ids(rows) - {rows[k].id} {
      var i :| 0 <= i < |r| && r[i].id == id;
      assert r[i] == rows[if i < k then i else i + 1];
    }
  }

  /** Every other id stays. */
  lemma {:induction false} RemovedIdsStay(rows: seq<Address>, k: nat, r: seq<Address>)
    requires RemovedAt(rows, k, r)
    ensures Ids(rows) - {rows[k].id} <= Ids(r)
  {
    forall id | id in Ids(rows) - {rows[k].id} ensures id in Ids(r) {
      var i :| 0 <= i < |rows| && rows[i].id == id;
      if i < k {
        assert r[i] == rows[i];
      } else {
        assert r[i - 1] == rows[i];
      }
    }
  }

  /* ---------------- patching ---------------- */

  /** `prisma.address.update({ data })` with the body's columns, owner kept. */
  function Patched(a: Address, p: Patch): (r: Address)
    ensures r.id == a.id && r.userId == a.userId
    ensures forall f :: f in p.fields ==> f in r.fields && r.fields[f] == p.fields[f]
    ensures forall f :: f !in p.fields ==> (f in r.fields <==> f in a.fields) && (f in a.fields ==> r.fields[f] == a.fields[f])
    ensures r.isDefault == if p.isDefault.Some? then p.isDefault.value else a.isDefault
  {
    a.(fields := a.fields + p.fields, isDefault := if p.isDefault.Some? then p.isDefault.value else a.isDefault)
  }

  /** The same update with every column of the body written, `userId`
      included, as `updateAddress` does. */
  function PatchedAsWritten(a: Address, p: Patch): (r: Address)
    ensures r.id == a.id
    ensures r.userId == if p.userId.Some? then p.userId.value else a.userId
    ensures r.isDefault == Patched(a, p).isDefault && r.fields == Patched(a, p).fields
  {
    Patched(a, p).(userId := if p.userId.Some? then p.userId.value else a.userId)
  }

  /** `updateAddress` as written: the defaults of the address's current owner
      are cleared, then the body is written, `userId` included. */
  function UpdateAsWritten(rows: seq<Address>, addressId: string, p: Patch): (r: Result<seq<Address>, string>)
    ensures r.Err? <==> addressId !in Ids(rows)
    ensures r.Err? ==> r.error == AddressNotFound
    ensures r.Ok? ==> |r.value| == |rows|
  {
    var k := IndexOf(rows, addressId);
    if k.None? then Err(AddressNotFound)
    else
      var cleared := if p.isDefault == Some(true) then Cleared(rows, rows[k.value].userId) else rows;
      Ok(cleared[k.value := PatchedAsWritten(cleared[k.value], p)])
  }

  /** A body that moves one user's default address to a user who already has
      a default leaves that user with two defaults. */
  lemma UpdateAsWrittenBreaksSingleDefault()
    ensures var rows := [Address("a1", "u1", map[], true), Address("b1", "u2", map[], true)];
      WellFormed(rows)
      && UpdateAsWritten(rows, "a1", Patch(Some("u2"), map[], None)).Ok?
      && !SingleDefaults(UpdateAsWritten(rows, "a1", Patch(Some("u2"), map[], None)).value)
  {
    var rows := [Address("a1", "u1", map[], true), Address("b1", "u2", map[], true)];
    assert IndexOf(rows, "a1") == Some(0);
    var after := UpdateAsWritten(rows, "a1", Patch(Some("u2"), map[], None)).value;
    assert after[0].userId == "u2" && after[0].isDefault;
    assert after[1] == rows[1];
  }

  /* ---------------- listing ---------------- */

  /** Byte-wise order of ids, as `orderBy: { id: "asc" }` under a binary
      collation. */
  predicate Below(a: string, b: string) {
    if a == [] then b != []
    else if b == [] then false
    else if a[0] != b[0] then a[0] < b[0]
    else Below(a[1..], b[1..])
  }

  lemma {:induction false} BelowTransitive(a: string, b: string, c: string)
    requires Below(a, b) && Below(b, c)
    ensures Below(a, c)
  {
    if a != [] && a[0] == b[0] && b[0] == c[0] {
      BelowTransitive(a[1..], b[1..], c[1..]);
    }
  }

  /** No address comes after a later one. */
  predicate SortedById(s: seq<Address>) {
    forall i, j :: 0 <= i < j < |s| ==> !Below(s[j].id, s[i].id)
  }

  function Insert(a: Address, s: seq<Address>): (r: seq<Address>)
    ensures multiset(r) == multiset(s) + multiset{a}
  {
    if s == [] then [a]
    else if Below(a.id, s[0].id) then [a] + s
    else
      assert s == [s[0]] + s[1..];
      [s[0]] + Insert(a, s[1..])
  }

  lemma {:induction false} BelowIrreflexive(a: string)
    ensures !Below(a, a)
  {
    if a != [] {
      BelowIrreflexive(a[1..]);
    }
  }

  /** No address of `s` comes before `x`. */
  predicate LowerBound(x: Address, s: seq<Address>) {
    forall i :: 0 <= i < |s| ==> !Below(s[i].id, x.id)
  }

  lemma {:induction false} InsertLowerBound(x: Address, a: Address, s: seq<Address>)
    requires LowerBound(x, s) && !Below(a.id, x.id)
    ensures LowerBound(x, Insert(a, s))
  {
    if s != [] && !Below(a.id, s[0].id) {
      InsertLowerBound(x, a, s[1..]);
    }
  }

  lemma {:induction false} InsertSorted(a: Address, s: seq<Address>)
    requires SortedById(s)
    ensures SortedById(Insert(a, s))
  {
    if s != [] {
      if Below(a.id, s[0].id) {
        forall j | 0 <= j < |s| ensures !Below(s[j].id, a.id) {
          if Below(s[j].id, a.id) {
            BelowTransitive(s[j].id, a.id, s[0].id);
            if j == 0 {
              BelowIrreflexive(s[0].id);
            }
          }
        }
        assert LowerBound(a, s);
      } else {
        var t := s[1..];
        assert SortedById(t);
        assert LowerBound(s[0], t);
        InsertSorted(a, t);
        InsertLowerBound(s[0], a, t);
      }
    }
  }

  function SortById(s: seq<Address>): (r: seq<Address>)
    ensures multiset(r) == multiset(s)
    ensures SortedById(r)
  {
    if s == [] then []
    else
      assert s == [s[0]] + s[1..];
      InsertSorted(s[0], SortById(s[1..]));
      Insert(s[0], SortById(s[1..]))
  }

  /** `listUserAddresses`: the user's addresses, ordered by id. */
  function ListUserAddresses(rows: seq<Address>, user: string): (r: seq<Address>)
    ensures multiset(r) == multiset(Owned(rows, user))
    ensures SortedById(r)
  {
    SortById(Owned(rows, user))
  }

  /** A listed address belongs to the user, and every address of the user is
      listed. */
  lemma {:induction false} ListUserAddressesMember(rows: seq<Address>, user: string, a: Address)
    ensures a in ListUserAddresses(rows, user) <==> a in rows && a.userId == user
  {
    OwnedMember(rows, user, a);
    assert a in ListUserAddresses(rows, user) <==> a in multiset(ListUserAddresses(rows, user));
  }

  /* ---------------- the service ---------------- */

  class AddressBook {
    var rows: seq<Address>

    ghost predicate Valid()
      reads this
    {
      WellFormed(rows)
    }

    constructor()
      ensures rows == [] && Valid()
    {
      rows := [];
    }

    /** `addAddress`: the user's first address is always the default; a new
        default clears the user's other defaults first. */
    method AddAddress(userId: string, data: NewAddress, newId: string, users: set<string>)
      returns (r: Result<Address, string>)
      requires Valid() && newId !in Ids(rows)
      modifies this
      ensures Valid()
      ensures userId !in users ==> r == Err(UserNotFound) && rows == old(rows)
      ensures userId in users ==>
        r == Ok(Address(newId, userId, data.fields, Owned(old(rows), userId) == [] || data.wantsDefault))
        && rows == (if r.value.isDefault then Cleared(old(rows), userId) else old(rows)) + [r.value]
      ensures r.Ok? && r.value.isDefault ==> DefaultOf(rows, userId) == Some(r.value)
    {
      if userId !in users {
        return Err(UserNotFound);
      }
      var wantsDefault := data.wantsDefault;
      if Owned(rows, userId) == [] {
        wantsDefault := true;
      }
      if wantsDefault {
        ClearedSpec(rows, userId);
        rows := Cleared(rows, userId);
      }
      var a := Address(newId, userId, data.fields, wantsDefault);
      AppendSpec(rows, a);
      rows := rows + [a];
      if wantsDefault {
        DefaultIsUnique(rows, userId, |rows| - 1);
      }
      r := Ok(a);
    }

    /** `updateAddress` with the owner kept: a body that makes the address
        the default clears its owner's other defaults first. */
    method UpdateAddress(addressId: string, p: Patch) returns (r: Result<Address, string>)
      requires Valid()
      modifies this
      ensures Valid()
      ensures addressId !in Ids(old(rows)) ==> r == Err(AddressNotFound) && rows == old(rows)
      ensures addressId in Ids(old(rows)) ==>
        var k := IndexOf(old(rows), addressId).value;
        var owner := old(rows)[k].userId;
        var cleared := if p.isDefault == Some(true) then Cleared(old(rows), owner) else old(rows);
        r == Ok(Patched(cleared[k], p)) && rows == cleared[k := r.value]
    {
      var k := IndexOf(rows, addressId);
      if k.None? {
        return Err(AddressNotFound);
      }
      var owner := rows[k.value].userId;
      if p.isDefault == Some(true) {
        ClearedSpec(rows, owner);
        rows := Cleared(rows, owner);
      }
      var a := Patched(rows[k.value], p);
      ReplaceSpec(rows, k.value, a);
      rows := rows[k.value := a];
      r := Ok(a);
    }

    /** `deleteAddress`: an unknown or default address is refused; otherwise
        exactly that row goes. */
    method DeleteAddress(addressId: string) returns (r: Result<Address, string>)
      requires Valid()
      modifies this
      ensures Valid()
      ensures addressId !in Ids(old(rows)) ==> r == Err(AddressNotFound) && rows == old(rows)
      ensures addressId in Ids(old(rows)) ==>
        var k := IndexOf(old(rows), addressId).value;
        if old(rows)[k].isDefault then r == Err(DefaultNotDeletable) && rows == old(rows)
        else r == Ok(old(rows)[k]) && rows == old(rows)[..k] + old(rows)[k + 1..]
      ensures Ids(rows) == if r.Ok? then Ids(old(rows)) - {addressId} else Ids(old(rows))
    {
      var k := IndexOf(rows, addressId);
      if k.None? {
        return Err(AddressNotFound);
      }
      var a := rows[k.value];
      if a.isDefault {
        return Err(DefaultNotDeletable);
      }
      RemoveSpec(rows, k.value);
      rows := rows[..k.value] + rows[k.value + 1..];
      r := Ok(a);
    }

    /** `setDefaultAddress`: only the user's own address can become the
        user's one default. */
    method SetDefaultAddress(userId: string, addressId: string) returns (r: Result<Address, string>)
      requires Valid()
      modifies this
      ensures Valid()
      ensures addressId !in Ids(old(rows)) || old(rows)[IndexOf(old(rows), addressId).value].userId != userId ==>
        r == Err(NotUsersAddress) && rows == old(rows)
      ensures addressId in Ids(old(rows)) && old(rows)[IndexOf(old(rows), addressId).value].userId == userId ==>
        var k := IndexOf(old(rows), addressId).value;
        r == Ok(old(rows)[k].(isDefault := true)) && rows == Cleared(old(rows), userId)[k := r.value]
      ensures r.Ok? ==> DefaultOf(rows, userId) == Some(r.value)
    {
      var k := IndexOf(rows, addressId);
      if k.None? || rows[k.value].userId != userId {
        return Err(NotUsersAddress);
      }
      ClearedSpec(rows, userId);
      rows := Cleared(rows, userId);
      var a := rows[k.value].(isDefault := true);
      ReplaceSpec(rows, k.value, a);
      rows := rows[k.value := a];
      DefaultIsUnique(rows, userId, k.value);
      r := Ok(a);
    }
  }
}
