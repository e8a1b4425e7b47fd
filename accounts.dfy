/** The `/accounts` routes (backend/src/routes/accounts.js) over an
    in-memory Account collection: list and get with the linked trades,
    create and update behind the required-name and duplicate-name guards,
    and delete. */
module Accounts {
  import opened Common
  import opened Strings
  import opened JsValues
  import opened Sorting
  import opened TradesRoute
  import opened NamedDocs

  const AccountNameRequired: string := "Account name is required."
  const AccountNameTaken: string := "An account with this name already exists. Please choose a different name."
  const AccountNotFound: string := "Account not found"

  /** A stored Account document (backend/src/models/Account.js). Updates run
      without validators, so a name or a type can be null after a PUT. */
  datatype Account = Account(
    id: ObjectId,
    name: Option<string>,
    balance: Option<real>,
    initialBalance: Option<real>,
    accountType: Option<string>,
    customFields: JsValue,
    createdAt: int)

  /** The collection and the next `_id` it hands out. */
  datatype Accounts = Accounts(docs: seq<Account>, nextId: ObjectId)

  /** Between requests: ids are distinct and below the next id. */
  ghost predicate ValidAccounts(s: Accounts)
  {
    (forall i :: 0 <= i < |s.docs| ==> s.docs[i].id < s.nextId) &&
    (forall i, j :: 0 <= i < j < |s.docs| ==> s.docs[i].id != s.docs[j].id)
  }

  function Entries(docs: seq<Account>): (r: seq<NameEntry>)
    ensures |r| == |docs| && forall i :: 0 <= i < |docs| ==> r[i] == NameEntry(docs[i].id, docs[i].name)
  {
    seq(|docs|, i requires 0 <= i < |docs| => NameEntry(docs[i].id, docs[i].name))
  }

  lemma EntriesAppend(docs: seq<Account>, a: Account)
    ensures Entries(docs + [a]) == Entries(docs) + [NameEntry(a.id, a.name)]
  {
    assert Entries(docs + [a])[|docs|] == NameEntry(a.id, a.name);
  }

  /** Position of the account with `_id == id`, or `|docs|`. */
  function FindAccount(docs: seq<Account>, id: ObjectId): (i: nat)
    ensures i <= |docs|
    ensures i < |docs| ==> docs[i].id == id
    ensures forall j :: 0 <= j < i ==> docs[j].id != id
  {
    FindFirst(docs, (a: Account) => a.id, id)
  }

  // ---------------------------------------------------------------------
  // The document a POST or PUT writes
  // ---------------------------------------------------------------------

  /** `typeof body.initial_balance === "number" ? body.initial_balance : null`. */
  function InitialBalance(body: JsValue): (r: JsValue)
    ensures r.Num? || r.Null?
    ensures r.Num? <==> Get(body, "initial_balance").Num?
    ensures r.Num? ==> r == Get(body, "initial_balance")
  {
    var v := Get(body, "initial_balance");
    if v.Num? then v else Null
  }

  /** The fields of the write, cast to the schema's paths. */
  datatype AccountWrite = AccountWrite(
    name: Write<Option<string>>,
    balance: Option<real>,
    initialBalance: Option<real>,
    accountType: Write<Option<string>>,
    customFields: JsValue)

  /** The object both handlers pass to Mongoose, cast path by path; a value
      that does not cast fails the whole call. The name and type are written
      as sent, `initial_balance` only when it is a number, `account_balance`
      when given and the initial balance otherwise, and `custom_fields`
      defaults to null. */
  function CastAccountWrite(body: JsValue): (r: Response<AccountWrite>)
    ensures r.Ok? || r.InternalError?
    ensures r.Ok? <==> (CastTextWrite(Get(body, "account_name")).Ok? &&
                        CastTextWrite(Get(body, "account_type")).Ok? &&
                        CastNumber(Coalesce(Get(body, "account_balance"), InitialBalance(body))).Ok?)
    ensures r.Ok? ==> (r.value.name == CastTextWrite(Get(body, "account_name")).value &&
                       r.value.accountType == CastTextWrite(Get(body, "account_type")).value)
    ensures r.Ok? ==> ((r.value.initialBalance.Some? <==> Get(body, "initial_balance").Num?) &&
                       (r.value.initialBalance.Some? ==> r.value.initialBalance.value == Get(body, "initial_balance").x))
    ensures r.Ok? && IsNullish(Get(body, "account_balance")) ==> r.value.balance == r.value.initialBalance
    ensures r.Ok? && Get(body, "account_balance").Num? ==> r.value.balance == Some(Get(body, "account_balance").x)
    ensures r.Ok? && IsNullish(Get(body, "custom_fields")) ==> r.value.customFields == Null
  {
    var name := CastTextWrite(Get(body, "account_name"));
    var balance := CastNumber(Coalesce(Get(body, "account_balance"), InitialBalance(body)));
    var kind := CastTextWrite(Get(body, "account_type"));
    var initial := if InitialBalance(body).Num? then Some(InitialBalance(body).x) else None;
    if name.Ok? && balance.Ok? && kind.Ok? then
      Ok(AccountWrite(name.value, balance.value, initial, kind.value, Coalesce(Get(body, "custom_fields"), Null)))
    else InternalError
  }

  /** The stored document after the write: a kept path stays, the others
      take the written value. */
  function ApplyWrite(a: Account, w: AccountWrite): (r: Account)
    ensures r.id == a.id && r.createdAt == a.createdAt
    ensures r.name == Apply(w.name, a.name) && r.accountType == Apply(w.accountType, a.accountType)
    ensures r.balance == w.balance && r.initialBalance == w.initialBalance && r.customFields == w.customFields
  {
    a.(name := Apply(w.name, a.name), balance := w.balance, initialBalance := w.initialBalance,
       accountType := Apply(w.accountType, a.accountType), customFields := w.customFields)
  }

  // ---------------------------------------------------------------------
  // POST /accounts
  // ---------------------------------------------------------------------

  /** POST /accounts as a function of the collection; `now` is the creation time. */
  function CreateAccountSpec(s: Accounts, body: JsValue, now: int): (Response<Account>, Accounts)
  {
    CreateAccountWith(s, GuardName(Get(body, "account_name")), CastAccountWrite(body), now)
  }

  /** POST /accounts once the name is trimmed and the write cast. The
      schema requires a non-empty name and type. */
  function CreateAccountWith(s: Accounts, guard: Response<string>, w: Response<AccountWrite>, now: int)
    : (Response<Account>, Accounts)
  {
    if !guard.Ok? then (InternalError, s)
    else if guard.value == [] then (BadRequest(AccountNameRequired), s)
    else if FindMatch(Entries(s.docs), guard.value, None) < |s.docs| then (Conflict(AccountNameTaken), s)
    else if !w.Ok? || !Required(w.value.name) || !Required(w.value.accountType) then (InternalError, s)
    else
      var a := ApplyWrite(Account(s.nextId, None, None, None, None, Null, now), w.value);
      (Ok(a), Accounts(s.docs + [a], s.nextId + 1))
  }

  /** What POST /accounts answers once the name is trimmed (`guard`) and the
      body cast (`w`): an empty name is 400, a name that some account has,
      ignoring case and as a whole, is 409, and otherwise one account is
      appended under a fresh id, with the name and the type the write
      holds, both non-empty. Failures change nothing. */
  lemma CreateAccountOutcome(s: Accounts, guard: Response<string>, w: Response<AccountWrite>, now: int,
                             out: (Response<Account>, Accounts))
    requires ValidAccounts(s) && out == CreateAccountWith(s, guard, w, now)
    ensures out.0.BadRequest? <==> guard == Ok([])
    ensures out.0.Conflict? <==> guard.Ok? && guard.value != [] && Taken(Entries(s.docs), guard.value, None)
    ensures out.0.BadRequest? ==> out.0.error == AccountNameRequired
    ensures out.0.Conflict? ==> out.0.error == AccountNameTaken
    ensures out.0.Ok? || out.0.BadRequest? || out.0.Conflict? || out.0.InternalError?
    ensures !out.0.Ok? ==> out.1 == s
    ensures out.0.Ok? ==> (guard.Ok? && guard.value != [] && !Taken(Entries(s.docs), guard.value, None) &&
                           w.Ok? && Required(w.value.name) && Required(w.value.accountType))
    ensures out.0.Ok? ==> (out.0.value.name == w.value.name.value &&
                           out.0.value.accountType == w.value.accountType.value &&
                           out.0.value.createdAt == now)
    ensures out.0.Ok? ==> (out.1.docs == s.docs + [out.0.value] &&
                           forall i :: 0 <= i < |s.docs| ==> s.docs[i].id != out.0.value.id)
    ensures ValidAccounts(out.1)
  {
    if guard.Ok? && guard.value != [] {
      FindMatchTaken(Entries(s.docs), guard.value, None);
    }
  }

  /** The name POST stores is the one sent, not the trimmed one the
      duplicate check used: for a sent name `raw` whose cast the write
      holds, a created account is named `raw` exactly, and 400 comes
      exactly from a falsy or blank name. */
  lemma CreateStoresSentName(s: Accounts, raw: JsValue, w: Response<AccountWrite>, now: int)
    requires ValidAccounts(s)
    requires w.Ok? ==> CastTextWrite(raw) == Ok(w.value.name)
    ensures var out := CreateAccountWith(s, GuardName(raw), w, now);
      (out.0.BadRequest? <==> (!Truthy(raw) || (raw.Str? && Trim(raw.s) == []))) &&
      (out.0.Ok? ==> raw.Str? && out.0.value.name == Some(raw.s))
  {
    var out := CreateAccountWith(s, GuardName(raw), w, now);
    CreateAccountOutcome(s, GuardName(raw), w, now, out);
  }

  /** POST keeps names distinct when the name it stores is the one the
      duplicate check looked up, as it is when the name sent is already
      trimmed. */
  lemma CreateKeepsNamesDistinct(s: Accounts, name: string, w: Response<AccountWrite>, now: int)
    requires ValidAccounts(s) && DistinctNames(Entries(s.docs))
    requires w.Ok? ==> w.value.name == Set(Some(name))
    requires NoFinalNewline(name)
    ensures DistinctNames(Entries(CreateAccountWith(s, Ok(name), w, now).1.docs))
  {
    FindMatchTaken(Entries(s.docs), name, None);
    if FindMatch(Entries(s.docs), name, None) == |s.docs| && w.Ok? && Required(w.value.name) {
      AppendKeepsDistinct(s.docs, ApplyWrite(Account(s.nextId, None, None, None, None, Null, now), w.value), name);
    }
  }

  /** Appending a account under a name the lookup does not find keeps
      names distinct. */
  lemma AppendKeepsDistinct(docs: seq<Account>, a: Account, name: string)
    requires DistinctNames(Entries(docs)) && !Taken(Entries(docs), name, None) && a.name == Some(name)
    requires NoFinalNewline(name)
    ensures DistinctNames(Entries(docs + [a]))
  {
    EntriesAppend(docs, a);
    DistinctAppend(Entries(docs), NameEntry(a.id, a.name), name);
  }

  /** The duplicate check trims the name but the stored name is not
      trimmed, so sending the same untrimmed name twice creates two
      accounts whose names are equal ignoring case. The one exception is a
      name that is its trimmed form followed by one newline: the lookup's
      `$` matches before that final newline, so the second request is 409. */
  lemma UntrimmedNameRepeats(s: Accounts, name: string, w: Response<AccountWrite>, now1: int, now2: int)
    requires ValidAccounts(s) && !IsTrimmed(name)
    requires w.Ok? ==> w.value.name == Set(Some(name))
    requires CreateAccountWith(s, GuardName(Str(name)), w, now1).0.Ok?
    ensures var first := CreateAccountWith(s, GuardName(Str(name)), w, now1);
      var second := CreateAccountWith(first.1, GuardName(Str(name)), w, now2);
      (name != Trim(name) + "\n" ==>
         second.0.Ok? && SameName(first.0.value.name, second.0.value.name) &&
         first.0.value.id != second.0.value.id) &&
      (name == Trim(name) + "\n" ==> second.0 == Conflict(AccountNameTaken) && second.1 == first.1)
  {
    var guard := Ok(Trim(name));
    var first := CreateAccountWith(s, guard, w, now1);
    CreateAccountOutcome(s, guard, w, now1, first);
    TrimmedLookupOfUntrimmed(name);
    EntriesAppend(s.docs, first.0.value);
    var second := CreateAccountWith(first.1, guard, w, now2);
    if name != Trim(name) + "\n" {
      StillNotTaken(Entries(s.docs), NameEntry(first.0.value.id, first.0.value.name), Trim(name));
    } else {
      assert Entries(first.1.docs)[|s.docs|] == NameEntry(first.0.value.id, Some(name));
    }
    CreateAccountOutcome(first.1, guard, w, now2, second);
    FindMatchTaken(Entries(first.1.docs), Trim(name), None);
  }

  // ---------------------------------------------------------------------
  // PUT /accounts/:id
  // ---------------------------------------------------------------------

  /** PUT /accounts/:id as a function of the collection. */
  function UpdateAccountSpec(s: Accounts, id: string, body: JsValue): (Response<Account>, Accounts)
  {
    UpdateAccountWith(s, id, GuardName(Get(body, "account_name")), CastAccountWrite(body))
  }

  /** PUT /accounts/:id once the name is trimmed and the write cast. A
      malformed id fails its cast in the duplicate lookup or in the update;
      the duplicate check skips the account itself and is not made for an
      empty name. */
  function UpdateAccountWith(s: Accounts, id: string, guard: Response<string>, w: Response<AccountWrite>)
    : (Response<Account>, Accounts)
  {
    if !guard.Ok? then (InternalError, s)
    else
      match CastObjectId(Str(id))
      case None => (InternalError, s)
      case Some(oid) =>
        if guard.value != [] && FindMatch(Entries(s.docs), guard.value, Some(oid)) < |s.docs| then
          (Conflict(AccountNameTaken), s)
        else if !w.Ok? then (InternalError, s)
        else
          var i := FindAccount(s.docs, oid);
          if i == |s.docs| then (NotFound(AccountNotFound), s)
          else
            var a := ApplyWrite(s.docs[i], w.value);
            (Ok(a), Accounts(s.docs[i := a], s.nextId))
  }

  /** What PUT answers, for the trimmed-name guard and the cast write: 409
      exactly when the trimmed name is non-empty and another account has
      it, 404 exactly when an otherwise acceptable request names no
      account, and otherwise only that account changes, keeping its id and
      creation time. */
  lemma UpdateAccountOutcome(s: Accounts, id: string, guard: Response<string>, w: Response<AccountWrite>,
                             out: (Response<Account>, Accounts))
    requires ValidAccounts(s) && out == UpdateAccountWith(s, id, guard, w)
    ensures var oid := CastObjectId(Str(id));
      (out.0.Conflict? <==> (guard.Ok? && guard.value != [] && oid.Some? &&
                             Taken(Entries(s.docs), guard.value, oid))) &&
      (out.0.NotFound? <==> (guard.Ok? && oid.Some? && w.Ok? &&
                             (guard.value == [] || !Taken(Entries(s.docs), guard.value, oid)) &&
                             forall i :: 0 <= i < |s.docs| ==> s.docs[i].id != oid.value)) &&
      (out.0.InternalError? ==> !guard.Ok? || oid.None? || !w.Ok?)
    ensures out.0.Ok? || out.0.Conflict? || out.0.NotFound? || out.0.InternalError?
    ensures out.0.Conflict? ==> out.0.error == AccountNameTaken
    ensures out.0.NotFound? ==> out.0.error == AccountNotFound
    ensures !out.0.Ok? ==> out.1 == s
    ensures out.0.Ok? ==> exists i :: (0 <= i < |s.docs| && Some(s.docs[i].id) == CastObjectId(Str(id)) &&
                                      out.0.value == ApplyWrite(s.docs[i], w.value) &&
                                      out.1 == Accounts(s.docs[i := out.0.value], s.nextId))
    ensures ValidAccounts(out.1)
  {
    var oid := CastObjectId(Str(id));
    if guard.Ok? && oid.Some? {
      FindMatchTaken(Entries(s.docs), guard.value, oid);
      var i := FindAccount(s.docs, oid.value);
      if out.0.Ok? {
        assert s.docs[i := out.0.value][i] == out.0.value;
      }
    }
  }

  /** Renaming an account to its own name, in any case, is not a conflict
      while names are distinct: the lookup skips the account itself. */
  lemma RenameToOwnName(s: Accounts, id: ObjectId, name: string, w: Response<AccountWrite>)
    requires ValidAccounts(s) && DistinctNames(Entries(s.docs))
    requires FindAccount(s.docs, id) < |s.docs|
    requires NameMatches(s.docs[FindAccount(s.docs, id)].name, name)
    ensures !UpdateAccountWith(s, NatToString(id), Ok(name), w).0.Conflict?
  {
    CastObjectIdRoundTrip(id);
    OnlySelfMatches(Entries(s.docs), FindAccount(s.docs, id), name);
    FindMatchTaken(Entries(s.docs), name, Some(id));
  }

  // ---------------------------------------------------------------------
  // GET and DELETE
  // ---------------------------------------------------------------------

  /** The trades linked to an account, in collection order. */
  function TradesOf(trades: seq<Trade>, id: ObjectId): (r: seq<Trade>)
    ensures forall t :: t in r <==> t in trades && t.accountId == Some(id)
  {
    Filter(trades, (t: Trade) => t.accountId == Some(id))
  }

  /** GET /accounts/:id: the account with its trades. */
  function GetAccount(s: Accounts, trades: seq<Trade>, id: string): (r: Response<(Account, seq<Trade>)>)
    ensures r.Ok? || r.NotFound? || r.InternalError?
    ensures r.InternalError? <==> CastObjectId(Str(id)).None?
    ensures r.NotFound? <==> (CastObjectId(Str(id)).Some? &&
                              forall i :: 0 <= i < |s.docs| ==> s.docs[i].id != CastObjectId(Str(id)).value)
    ensures r.NotFound? ==> r.error == AccountNotFound
    ensures r.Ok? ==> r.value.0 in s.docs && Some(r.value.0.id) == CastObjectId(Str(id)) &&
                      r.value.1 == TradesOf(trades, r.value.0.id)
  {
    match CastObjectId(Str(id))
    case None => InternalError
    case Some(oid) =>
      var i := FindAccount(s.docs, oid);
      if i == |s.docs| then NotFound(AccountNotFound) else Ok((s.docs[i], TradesOf(trades, oid)))
  }

  /** Newest first (`sort({ created_at: -1 })`). */
  function ByCreatedDesc(): (Account, Account) -> bool
  {
    KeyLe((a: Account) => -a.createdAt)
  }

  /** The accounts newest first (`sort({ created_at: -1 })`). */
  function NewestFirst(docs: seq<Account>): (r: seq<Account>)
    ensures |r| == |docs| && multiset(r) == multiset(docs)
    ensures forall a :: a in r <==> a in docs
    ensures forall i, j :: 0 <= i < j < |r| ==> r[i].createdAt >= r[j].createdAt
  {
    KeyLeTotalPreorder((a: Account) => -a.createdAt);
    var r := Sort(docs, ByCreatedDesc());
    assert Sorted(r, ByCreatedDesc());
    assert forall a :: a in r <==> a in multiset(docs);
    r
  }

  /** GET /accounts: every account, newest first, each with its trades. */
  function ListAccounts(s: Accounts, trades: seq<Trade>): (r: seq<(Account, seq<Trade>)>)
    ensures |r| == |s.docs|
    ensures forall i, j :: 0 <= i < j < |r| ==> r[i].0.createdAt >= r[j].0.createdAt
    ensures forall i :: 0 <= i < |r| ==> r[i].0 in s.docs && r[i].1 == TradesOf(trades, r[i].0.id)
    ensures forall a :: a in s.docs ==> exists i :: 0 <= i < |r| && r[i].0 == a
  {
    var sorted := NewestFirst(s.docs);
    var r := seq(|sorted|, i requires 0 <= i < |sorted| => (sorted[i], TradesOf(trades, sorted[i].id)));
    forall a | a in s.docs ensures exists i :: 0 <= i < |r| && r[i].0 == a {
      var i :| 0 <= i < |sorted| && sorted[i] == a;
      assert r[i].0 == a;
    }
    r
  }

  /** DELETE /accounts/:id: `findByIdAndDelete`, answering "deleted" whether
      or not an account matched. */
  function DeleteAccountSpec(s: Accounts, id: string): (Response<()>, Accounts)
  {
    match CastObjectId(Str(id))
    case None => (InternalError, s)
    case Some(oid) =>
      var i := FindAccount(s.docs, oid);
      if i == |s.docs| then (Ok(()), s) else (Ok(()), Accounts(s.docs[..i] + s.docs[i + 1..], s.nextId))
  }

  /** DELETE never answers 404: it removes exactly the account with that id,
      if any, and keeps the others in order. */
  lemma DeleteAccountOutcome(s: Accounts, id: string, out: (Response<()>, Accounts))
    requires ValidAccounts(s) && out == DeleteAccountSpec(s, id)
    ensures out.0.Ok? || out.0.InternalError?
    ensures out.0.InternalError? <==> CastObjectId(Str(id)).None?
    ensures out.0.InternalError? ==> out.1 == s
    ensures out.0.Ok? ==> forall a :: a in out.1.docs <==> a in s.docs && Some(a.id) != CastObjectId(Str(id))
    ensures out.1 == s || exists i :: 0 <= i < |s.docs| && out.1.docs == s.docs[..i] + s.docs[i + 1..]
    ensures out.1.nextId == s.nextId && ValidAccounts(out.1)
  {
    match CastObjectId(Str(id))
    case None =>
    case Some(oid) =>
      var i := FindAccount(s.docs, oid);
      if i < |s.docs| {
        RemoveAccount(s, i);
        assert out.1.docs == s.docs[..i] + s.docs[i + 1..];
      } else {
        assert out.1 == s;
      }
  }

  /** Removing the account at `i` removes exactly the accounts with its id. */
  lemma RemoveAccount(s: Accounts, i: nat)
    requires ValidAccounts(s) && i < |s.docs|
    ensures var r := s.docs[..i] + s.docs[i + 1..];
      ValidAccounts(Accounts(r, s.nextId)) &&
      forall a :: a in r <==> a in s.docs && a.id != s.docs[i].id
  {
    var r := s.docs[..i] + s.docs[i + 1..];
    assert forall k :: 0 <= k < |r| ==> r[k] == s.docs[if k < i then k else k + 1];
    forall a | a in s.docs && a.id != s.docs[i].id ensures a in r {
      var k :| 0 <= k < |s.docs| && s.docs[k] == a;
      if k < i { assert r[k] == a; } else { assert r[k - 1] == a; }
    }
  }

  // ---------------------------------------------------------------------
  // The collection
  // ---------------------------------------------------------------------

  class AccountStore {
    var docs: seq<Account>
    var nextId: ObjectId

    function State(): Accounts
      reads this
    {
      Accounts(docs, nextId)
    }

    ghost predicate Valid()
      reads this
    {
      ValidAccounts(State())
    }

    constructor()
      ensures State() == Accounts([], 0) && Valid()
    {
      docs := [];
      nextId := 0;
    }

    /** POST /accounts: the guards, `findOne`, then `create`. */
    method Create(body: JsValue, now: int) returns (r: Response<Account>)
      requires Valid()
      modifies this
      ensures (r, State()) == CreateAccountSpec(old(State()), body, now)
      ensures Valid()
    {
      var guard := GuardName(Get(body, "account_name"));
      var w := CastAccountWrite(body);
      r := Insert(guard, w, now);
    }

    /** The part of POST /accounts after the name is trimmed and the body cast. */
    method Insert(guard: Response<string>, w: Response<AccountWrite>, now: int) returns (r: Response<Account>)
      requires Valid()
      modifies this
      ensures (r, State()) == CreateAccountWith(old(State()), guard, w, now)
      ensures Valid()
    {
      if !guard.Ok? {
        r := InternalError;
      } else if guard.value == [] {
        r := BadRequest(AccountNameRequired);
      } else if FindMatch(Entries(docs), guard.value, None) < |docs| {
        r := Conflict(AccountNameTaken);
      } else if !w.Ok? || !Required(w.value.name) || !Required(w.value.accountType) {
        r := InternalError;
      } else {
        var a := ApplyWrite(Account(nextId, None, None, None, None, Null, now), w.value);
        docs, nextId := docs + [a], nextId + 1;
        r := Ok(a);
      }
    }

    /** PUT /accounts/:id: the guards, `findOne`, then `findByIdAndUpdate`. */
    method Update(id: string, body: JsValue) returns (r: Response<Account>)
      requires Valid()
      modifies this
      ensures (r, State()) == UpdateAccountSpec(old(State()), id, body)
      ensures Valid()
    {
      var guard := GuardName(Get(body, "account_name"));
      var w := CastAccountWrite(body);
      r := UpdateIn(id, guard, w);
    }

    /** The part of PUT /accounts/:id after the name is trimmed and the body cast. */
    method UpdateIn(id: string, guard: Response<string>, w: Response<AccountWrite>) returns (r: Response<Account>)
      requires Valid()
      modifies this
      ensures (r, State()) == UpdateAccountWith(old(State()), id, guard, w)
      ensures Valid()
    {
      ghost var before := State();
      var oid := CastObjectId(Str(id));
      if !guard.Ok? || oid.None? {
        r := InternalError;
      } else if guard.value != [] && FindMatch(Entries(docs), guard.value, oid) < |docs| {
        r := Conflict(AccountNameTaken);
      } else if !w.Ok? {
        r := InternalError;
      } else {
        var i := FindAccount(docs, oid.value);
        if i == |docs| {
          r := NotFound(AccountNotFound);
        } else {
          var a := ApplyWrite(docs[i], w.value);
          docs := docs[i := a];
          r := Ok(a);
        }
      }
      UpdateAccountOutcome(before, id, guard, w, (r, State()));
    }

    /** DELETE /accounts/:id. */
    method Delete(id: string) returns (r: Response<()>)
      requires Valid()
      modifies this
      ensures (r, State()) == DeleteAccountSpec(old(State()), id)
      ensures Valid()
    {
      DeleteAccountOutcome(State(), id, DeleteAccountSpec(State(), id));
      var oid := CastObjectId(Str(id));
      if oid.None? {
        return InternalError;
      }
      var i := FindAccount(docs, oid.value);
      if i < |docs| {
        docs := docs[..i] + docs[i + 1..];
      }
      r := Ok(());
    }
  }
}
