/** What the other accepted calls store and answer, field by field against the request. */
module Effects {
  import opened Options
  import opened Books
  import opened Handlers
  import opened StoredSplits

  // ---- accounts

  predicate IsAccountEdit(r: Request) {
    r.CreateAccount? || r.UpdateAccount?
  }

  function AccountTarget(r: Request, env: Env): Guid
    requires IsAccountEdit(r)
  {
    if r.UpdateAccount? && r.account.guid.Wire? then r.account.guid.guid else env.entity
  }

  /** The stored account has what the request gives, and the stamp that it had, if it was there. */
  predicate AccountAsAsked(a: Account, s: AccountSpec, stamp: Option<Seconds>) {
    && a.parent.Some? && s.parent == Wire(a.parent.value) && a.name == s.name && a.kind == Modelled(s.kind)
    && a.commodity == Some(s.commodity) && a.code == s.code && a.description == s.description
    && a.placeholder == s.placeholder && a.hidden == s.hidden && a.lastReconciled == stamp
  }

  predicate AccountViewAsAsked(v: AccountView, g: Guid, s: AccountSpec) {
    && v.guid == g && v.parent.Some? && s.parent == Wire(v.parent.value) && v.name == s.name && v.kind == s.kind
    && v.commodity == Some(s.commodity) && v.code == s.code && v.description == s.description
    && v.placeholder == s.placeholder && v.hidden == s.hidden
  }

  /** An accepted creation or update of an account stores exactly what was asked for, under a new
      GUID or the one named, changes nothing else, and answers with it. */
  lemma AccountStoredAsAsked(b: Book, r: Request, env: Env, response: Response, post: Book)
    requires IsAccountEdit(r) && Fresh(b, r, env) && Execute(Some(b), r, env) == Commit(response, post)
    ensures var g, s := AccountTarget(r, env), r.account;
            && (g in b.accounts <==> r.UpdateAccount?) && g in post.accounts
            && post == b.(accounts := b.accounts[g := post.accounts[g]])
            && AccountAsAsked(post.accounts[g], s, if r.UpdateAccount? then b.accounts[g].lastReconciled else None)
            && response.AccountReply? && AccountViewAsAsked(response.account, g, s)
  {
  }

  /** Any account's view shows all of it but the stamp; a type that the contract does not know
      shows as unspecified. */
  lemma AccountShown(g: Guid, a: Account)
    ensures var v := AccountToProto(g, a);
            && v.guid == g && v.parent == a.parent && v.name == a.name && v.commodity == a.commodity
            && v.code == a.code && v.description == a.description
            && v.placeholder == a.placeholder && v.hidden == a.hidden
            && (a.kind.Modelled? ==> v.kind == a.kind.kind) && (a.kind.Obsolete? ==> v.kind.UnspecifiedType?)
  {
  }

  // ---- deletions

  lemma DeletedAsAsked(b: Book, r: Request, env: Env, response: Response, post: Book)
    requires (r.DeleteAccount? || r.DeleteTransaction?) && Execute(Some(b), r, env) == Commit(response, post)
    ensures r.guid.Wire? && response == EmptyReply
    ensures r.DeleteAccount? ==>
              && r.guid.guid in b.accounts && post.accounts.Keys == b.accounts.Keys - {r.guid.guid}
              && (forall g :: g in post.accounts ==> post.accounts[g] == b.accounts[g])
              && post == b.(accounts := post.accounts)
    ensures r.DeleteTransaction? ==>
              && r.guid.guid in b.transactions && post.transactions.Keys == b.transactions.Keys - {r.guid.guid}
              && (forall g :: g in post.transactions ==> post.transactions[g] == b.transactions[g])
              && post == b.(transactions := post.transactions)
  {
  }

  // ---- days and stamps

  /** The neutral instant of a day is 10:59, and falls on that day in every zone from 10 hours 59
      minutes behind to just over 13 hours ahead, and in no other. */
  lemma NeutralInZones(day: Day, ahead: Seconds)
    ensures DayOf(NeutralTime(day)) == day && NeutralTime(day) == day * 86400 + 10 * 3600 + 59 * 60
    ensures DayOf(NeutralTime(day) + ahead) == day <==> -(10 * 3600 + 59 * 60) <= ahead < 13 * 3600 + 60
  {
    var t := 39540 + ahead;
    assert NeutralTime(day) + ahead == day * 86400 + t;
    assert (day * 86400 + t) / 86400 == day + t / 86400;
  }

  lemma CountsAlike(v: ReconcileView, b: Book, c: Book, g: Guid)
    requires CountsReconciled(v, c, g) && c.transactions == b.transactions
    ensures CountsReconciled(v, b, g)
  {
  }

  lemma DayShown(b: Book, g: Guid, day: Day)
    requires g in b.accounts && b.accounts[g].lastReconciled == Some(NeutralTime(day))
    ensures ReconcileInfoToProto(b, g).lastDay == Some(day)
  {
  }

  lemma StampShown(b: Book, g: Guid, day: Day)
    requires g in b.accounts
    ensures var v := ReconcileInfoToProto(Stamped(b, g, day), g);
            v.lastDay == Some(day) && CountsReconciled(v, b, g)
  {
    var after := Stamped(b, g, day);
    DayShown(after, g, day);
    ReconciledIsCounted(after, g);
    CountsAlike(ReconcileInfoToProto(after, g), b, after, g);
  }

  /** An accepted stamp is on the day asked for, shows as that day, and changes nothing else. */
  lemma StampedAsAsked(b: Book, r: Request, env: Env, response: Response, post: Book)
    requires r.SetReconcileInfo? && Execute(Some(b), r, env) == Commit(response, post)
    ensures r.guid.Wire? && r.guid.guid in b.accounts && r.lastDate.Date?
    ensures var g, day := r.guid.guid, r.lastDate.day;
            && post == b.(accounts := b.accounts[g := b.accounts[g].(lastReconciled := Some(NeutralTime(day)))])
            && response.ReconcileReply? && response.info.lastDay == Some(day) && CountsReconciled(response.info, b, g)
  {
    StampShown(b, r.guid.guid, r.lastDate.day);
  }

  // ---- prices

  /** An accepted price is stored under a new GUID, on its day, with a source in any case, and
      changes nothing else. */
  lemma PriceStoredAsAsked(b: Book, r: Request, env: Env, response: Response, post: Book)
    requires r.AddPrice? && Fresh(b, r, env) && Execute(Some(b), r, env) == Commit(response, post)
    ensures var g, s := env.entity, r.price;
            && g !in b.prices && g in post.prices && post == b.(prices := b.prices[g := post.prices[g]])
            && s.date.Date? && s.commodity in b.commodities && s.currency in b.commodities && b.commodities[s.currency]
            && var p, source := post.prices[g], if s.source == "" then "shim:api" else s.source;
            && p.commodity == s.commodity && p.currency == s.currency && p.value == s.value && p.source == source
            && p.time == NeutralTime(s.date.day)
            && response == PriceReply(PriceView(g, s.commodity, s.currency, s.date.day, p.value, source))
  {
  }
}
