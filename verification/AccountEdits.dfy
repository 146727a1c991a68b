/** The account handlers as they run on the engine's account objects: checks first, then the
    setters one by one, then the view that becomes the response. */
module AccountEdits {
  import opened Options
  import opened Errors
  import opened Books
  import opened Accounts
  import opened Transactions
  import opened Handlers

  class EngineAccount {
    const guid: Guid
    var parent: EngineAccount?
    var name: string
    var kind: EngineType
    var commodity: Option<CommodityId>
    var code: string
    var description: string
    var placeholder: bool
    var hidden: bool
    var lastReconciled: Option<Seconds>

    /** xaccMallocAccount. */
    constructor (guid: Guid)
      ensures this.guid == guid && parent == null && Content() == BLANK
    {
      this.guid, parent, name, kind, commodity := guid, null, "", Obsolete(0), None;
      code, description, placeholder, hidden, lastReconciled := "", "", false, false, None;
    }

    function Content(): Account
      reads this
    {
      Account(if parent == null then None else Some(parent.guid), name, kind, commodity, code,
              description, placeholder, hidden, lastReconciled)
    }

    /** The setters that a full replacement calls, in order. */
    method SetFrom(s: AccountSpec, kind: EngineType, newParent: EngineAccount)
      modifies this
      ensures Content() == WithSpec(old(Content()), s, newParent.guid, kind)
    {
      name := s.name;
      this.kind := kind;
      commodity := Some(s.commodity);
      code := s.code;
      description := s.description;
      placeholder := s.placeholder;
      hidden := s.hidden;
      if newParent != parent {
        parent := newParent;
      }
    }
  }

  /** What a handler's run must amount to: the refusal with nothing changed, or the response
      with the book ready for the commit. */
  ghost predicate Does(spec: Result<Verdict, ShimError>, r: Result<Response, ShimError>, before: Book, after: Book) {
    match spec
    case Err(e) => r == Err(e) && after == before
    case Ok(Reject(_)) => false
    case Ok(Commit(response, post)) => r == Ok(response) && after == post
  }

  /** The engine's book, with its accounts as objects. */
  class EngineBook {
    const root: EngineAccount
    const transactions: map<Guid, Transaction>
    const prices: map<Guid, Price>
    const commodities: map<CommodityId, bool>
    var accounts: map<Guid, EngineAccount>

    constructor (root: EngineAccount, transactions: map<Guid, Transaction>, prices: map<Guid, Price>,
                 commodities: map<CommodityId, bool>)
      ensures Valid() && accounts == map[root.guid := root]
      ensures this.root == root && this.transactions == transactions && this.prices == prices && this.commodities == commodities
    {
      this.root, this.transactions, this.prices, this.commodities := root, transactions, prices, commodities;
      accounts := map[root.guid := root];
    }

    ghost predicate Valid()
      reads this
    {
      && root.guid in accounts && accounts[root.guid] == root
      && forall g :: g in accounts ==> accounts[g].guid == g
    }

    function Shown(): Book
      reads this, accounts.Values
    {
      Book(root.guid, map g | g in accounts :: accounts[g].Content(), transactions, prices, commodities)
    }

    /** The new account is in the book as soon as it has its parent. */
    method Adopt(account: EngineAccount)
      requires Valid() && account.guid !in accounts
      modifies this`accounts
      ensures Valid() && accounts == old(accounts)[account.guid := account]
      ensures Shown() == old(Shown()).(accounts := old(Shown()).accounts[account.guid := account.Content()])
    {
      ghost var was := Shown().accounts;
      accounts := accounts[account.guid := account];
      assert Shown().accounts == was[account.guid := account.Content()];
    }

    /** Make the account, set it, and hang it under its parent. */
    method Create(s: AccountSpec, g: Guid, kind: EngineType, parent: EngineAccount) returns (r: Result<Response, ShimError>)
      requires Valid() && g !in accounts
      modifies this`accounts
      ensures Valid()
      ensures var a := WithSpec(BLANK, s, parent.guid, kind);
              && Shown() == old(Shown()).(accounts := old(Shown()).accounts[g := a])
              && r == Ok(AccountReply(AccountToProto(g, a)))
    {
      var account := new EngineAccount(g);
      account.SetFrom(s, kind, parent);
      Adopt(account);
      return Ok(AccountReply(AccountToProto(g, account.Content())));
    }

    method CreateAccount(s: AccountSpec, env: Env) returns (r: Result<Response, ShimError>)
      requires Valid() && env.entity !in accounts
      modifies this`accounts
      ensures Valid()
      ensures Does(DoCreateAccount(Some(old(Shown())), s, env), r, old(Shown()), Shown())
    {
      if !s.guid.NoGuid? {
        return Err(Invalid(GuidMustBeEmpty, Field("account.guid")));
      }
      if s.name == "" {
        return Err(Invalid(NameRequired, Field("account.name")));
      }
      if s.parent.NoGuid? {
        return Err(Invalid(ParentRequired, Field("account.parent_guid")));
      }
      var b := Shown();
      var parent :- FindAccount(b, s.parent, Field("account.parent_guid"));
      var kind :- AccountTypeFromProto(s.kind);
      var commodity :- FindCommodity(b, s.commodity, Field("account.commodity"));
      r := Create(s, env.entity, kind, accounts[parent]);
    }

    method UpdateAccount(s: AccountSpec) returns (r: Result<Response, ShimError>)
      requires Valid() && IsTree(Shown())
      modifies accounts.Values
      ensures Valid()
      ensures Does(DoUpdateAccount(Some(old(Shown())), s), r, old(Shown()), Shown())
    {
      if s.guid.NoGuid? {
        return Err(Invalid(GuidRequired, Field("account.guid")));
      }
      if s.name == "" {
        return Err(Invalid(NameRequired, Field("account.name")));
      }
      var b := Shown();
      var g :- FindAccount(b, s.guid, Field("account.guid"));
      if g == b.root {
        return Err(Invalid(RootUnmodifiable, Field("account.guid")));
      }
      var kind :- AccountTypeFromProto(s.kind);
      var commodity :- FindCommodity(b, s.commodity, Field("account.commodity"));
      if s.parent.NoGuid? {
        return Err(Invalid(ParentRequired, Field("account.parent_guid")));
      }
      var newParent :- FindAccount(b, s.parent, Field("account.parent_guid"));
      var clear := CheckNoCycle(b, g, newParent);
      if !clear {
        return Err(Invalid(WouldCycle, Field("account.parent_guid")));
      }
      var account := accounts[g];
      account.SetFrom(s, kind, accounts[newParent]);
      assert Shown().accounts == b.accounts[g := WithSpec(b.accounts[g], s, newParent, kind)];
      return Ok(AccountReply(AccountToProto(g, account.Content())));
    }

    method DeleteAccount(guid: GuidText) returns (r: Result<Response, ShimError>)
      requires Valid()
      modifies this`accounts
      ensures Valid()
      ensures Does(DoDeleteAccount(Some(old(Shown())), guid), r, old(Shown()), Shown())
    {
      var b := Shown();
      var g :- FindAccount(b, guid, Field("guid"));
      if g == b.root {
        return Err(Invalid(RootUnmodifiable, Field("guid")));
      }
      if HasSplits(b, g) || HasChild(b, g) {
        return Err(ShimError(AccountNotEmpty, HasSplitsOrChildren, Entity(g)));
      }
      accounts := accounts - {g};
      assert Shown().accounts == b.accounts - {g};
      return Ok(EmptyReply);
    }

    method Stamp(g: Guid, day: Day)
      requires Valid() && g in accounts
      modifies accounts[g]
      ensures Valid() && Shown() == Stamped(old(Shown()), g, day)
    {
      ghost var b := Shown();
      accounts[g].lastReconciled := Some(NeutralTime(day));
      assert Shown().accounts == Stamped(b, g, day).accounts;
    }

    method SetReconcileInfo(guid: GuidText, d: WireDate) returns (r: Result<Response, ShimError>)
      requires Valid()
      modifies accounts.Values
      ensures Valid()
      ensures Does(DoSetReconcileInfo(Some(old(Shown())), guid, d), r, old(Shown()), Shown())
    {
      var b := Shown();
      var g :- FindAccount(b, guid, Field("account_guid"));
      var day :- DateFromProto(d, DateRequired, Field("last_date"));
      Stamp(g, day);
      return Ok(ReconcileReply(ReconcileInfoToProto(Shown(), g)));
    }
  }
}
