/**
 * The Mongo `auth` collection as an in-memory table.
 *
 * The collection is a sequence of account documents in insertion order.
 * The store-assigned `_id` is modelled as a natural number equal to the
 * document's position, and `findOne(filter)` as the first document in
 * that order that the filter selects. Mongo's natural order need not be
 * insertion order; the handlers' contracts do not depend on it, because
 * under TableInvariant the username and `_id` filters select at most one
 * document and the `$or` filter is only tested for existence.
 */
module AccountStore {
  import opened Passwords

  datatype Option<T> = None | Some(value: T)

  /** One document of the `auth` collection (auth.js:42-48, plus `_id`). */
  datatype Account = Account(
    id: nat,
    username: string,
    email: string,
    password: Digest,
    roles: seq<string>,
    createdAt: nat)

  /** The three filter documents the handlers pass to findOne. */
  datatype Filter =
    | UsernameIs(username: string)                      // { username }
    | UsernameOrEmail(username: string, email: string)  // { $or: [{ username }, { email }] }
    | IdIs(id: nat)                                     // { _id }

  predicate Selects(f: Filter, a: Account)
  {
    match f
    case UsernameIs(u) => a.username == u
    case UsernameOrEmail(u, e) => a.username == u || a.email == e
    case IdIs(id) => a.id == id
  }

  /** Some document of the table is selected by the filter. */
  predicate AnyMatches(t: seq<Account>, f: Filter)
  {
    exists i :: 0 <= i < |t| && Selects(f, t[i])
  }

  /** findOne: the position of the first selected document, if any. */
  function FindOne(t: seq<Account>, f: Filter): (r: Option<nat>)
    ensures r.None? <==> !AnyMatches(t, f)
    ensures r.Some? ==> r.value < |t| && Selects(f, t[r.value])
    ensures r.Some? ==> forall j :: 0 <= j < r.value ==> !Selects(f, t[j])
  {
    FindFrom(t, f, 0)
  }

  /** The scan behind FindOne, starting at position k. */
  function FindFrom(t: seq<Account>, f: Filter, k: nat): (r: Option<nat>)
    requires k <= |t|
    requires forall j :: 0 <= j < k ==> !Selects(f, t[j])
    ensures r.None? <==> !AnyMatches(t, f)
    ensures r.Some? ==> k <= r.value < |t| && Selects(f, t[r.value])
    ensures r.Some? ==> forall j :: 0 <= j < r.value ==> !Selects(f, t[j])
    decreases |t| - k
  {
    if k == |t| then None
    else if Selects(f, t[k]) then Some(k)
    else FindFrom(t, f, k + 1)
  }

  /** Every document's `_id` is its position. */
  predicate IdsArePositions(t: seq<Account>)
  {
    forall i :: 0 <= i < |t| ==> t[i].id == i
  }

  predicate UniqueUsernames(t: seq<Account>)
  {
    forall i, j :: 0 <= i < j < |t| ==> t[i].username != t[j].username
  }

  predicate UniqueEmails(t: seq<Account>)
  {
    forall i, j :: 0 <= i < j < |t| ==> t[i].email != t[j].email
  }

  /** What the handlers keep true of the collection. */
  predicate TableInvariant(t: seq<Account>)
  {
    IdsArePositions(t) && UniqueUsernames(t) && UniqueEmails(t)
  }

  /** Appending a document whose username and email are both unused, with
      the next position as id, keeps the invariant: this is what makes a
      run of registrations free of duplicates. */
  lemma AppendKeepsInvariant(t: seq<Account>, a: Account)
    requires TableInvariant(t)
    requires a.id == |t|
    requires !AnyMatches(t, UsernameOrEmail(a.username, a.email))
    ensures TableInvariant(t + [a])
  {
  }

  /** Replacing the password of one document keeps the invariant. */
  lemma SetPasswordKeepsInvariant(t: seq<Account>, i: nat, d: Digest)
    requires TableInvariant(t)
    requires i < |t|
    ensures TableInvariant(t[i := t[i].(password := d)])
  {
  }

  /** In a well-formed table, looking an id up finds the document at that
      position exactly when the id is below the table's length. */
  lemma FindByIdIsPosition(t: seq<Account>, id: nat)
    requires IdsArePositions(t)
    ensures FindOne(t, IdIs(id)) == if id < |t| then Some(id) else None
  {
    if id < |t| {
      assert Selects(IdIs(id), t[id]);
    }
  }

  /** With unique usernames, looking a username up finds the one document
      that carries it. */
  lemma FindByUsernameIsUnique(t: seq<Account>, u: string, i: nat)
    requires UniqueUsernames(t)
    requires i < |t| && t[i].username == u
    ensures FindOne(t, UsernameIs(u)) == Some(i)
  {
  }
}
