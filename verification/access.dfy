/** Store-scoped access: who sees which records, which stores a user may work
    with, what the access middleware lets through, what the templates are told,
    and the profile every user is given. A user is either an administrator
    (a superuser, or staff with no store), or is assigned to one store. */
module Access {
  import opened Common
  import opened Records

  /** A user's profile; `store` is the store the user is assigned to. */
  datatype Profile = Profile(store: Option<StoreId>, phone: string, position: string, bio: string)

  /** The fields of the logged-in user the rules look at; `profile` is None when
      the user has no profile row (then `user.profile` raises). */
  datatype User = User(authenticated: bool, superuser: bool, staff: bool, profile: Option<Profile>)

  // ---------------------------------------------------------------------
  // UserProfile.has_full_access and get_accessible_stores
  // ---------------------------------------------------------------------

  /** `is_superuser or is_staff and store is None`: Python's `and` binds
      tighter than `or`. */
  predicate HasFullAccess(superuser: bool, staff: bool, store: Option<StoreId>)
  {
    superuser || (staff && store.None?)
  }

  /** The stores a profile may work with: every store with full access, else
      the assigned store as the store table holds it, else none. */
  function AccessibleStores(stores: set<StoreId>, superuser: bool, staff: bool, store: Option<StoreId>): (r: set<StoreId>)
    ensures r <= stores
    ensures HasFullAccess(superuser, staff, store) ==> r == stores
    ensures !HasFullAccess(superuser, staff, store) && store.Some? ==> r == stores * {store.value}
    ensures !superuser && !staff && store.None? ==> r == {}
  {
    if HasFullAccess(superuser, staff, store) then stores
    else if store.Some? then set s | s in stores && s == store.value
    else {}
  }

  /** The assigned store is a row of the store table (the foreign key keeps it
      so), so a user limited to it may work with exactly that one store; a
      superuser's assignment does not limit them. */
  lemma AssignedStoreOnly(stores: set<StoreId>, superuser: bool, staff: bool, store: StoreId)
    requires store in stores
    ensures !superuser ==> AccessibleStores(stores, superuser, staff, Some(store)) == {store}
    ensures superuser ==> AccessibleStores(stores, superuser, staff, Some(store)) == stores
  {
  }

  // ---------------------------------------------------------------------
  // filter_by_user_store
  // ---------------------------------------------------------------------

  /** The store relations a model offers, in the order the filter tries them:
      a `store` field; a `scooter` whose model has a `store`; a `part` whose
      model has a `store`; both a `source_store` and a `destination_store`. */
  datatype Relations = Relations(store: bool, scooter: bool, part: bool, ends: bool)

  /** A record as the filter sees it: the store each relation leads to (None
      for a null link or a relation the model lacks). */
  datatype Row = Row(
    store: Option<StoreId>,
    scooterStore: Option<StoreId>,
    partStore: Option<StoreId>,
    source: Option<StoreId>,
    destination: Option<StoreId>)

  /** How the records are narrowed for a store-assigned user. */
  datatype Rule = Everything | ByStore | ByScooter | ByPart | ByEitherEnd

  /** The first relation the model has, in the filter's order; a model with
      none of them is not narrowed. */
  function RuleFor(model: Relations): (r: Rule)
    ensures r == Everything <==> !model.store && !model.scooter && !model.part && !model.ends
    ensures model.store ==> r == ByStore
  {
    if model.store then ByStore
    else if model.scooter then ByScooter
    else if model.part then ByPart
    else if model.ends then ByEitherEnd
    else Everything
  }

  predicate Visible(rule: Rule, store: StoreId, row: Row)
  {
    match rule
    case Everything => true
    case ByStore => row.store == Some(store)
    case ByScooter => row.scooterStore == Some(store)
    case ByPart => row.partStore == Some(store)
    case ByEitherEnd => row.source == Some(store) || row.destination == Some(store)
  }

  /** The records the rule keeps, in their order. */
  function Select(rows: seq<Row>, rule: Rule, store: StoreId): (r: seq<Row>)
    ensures |r| <= |rows|
    ensures forall x :: x in r <==> x in rows && Visible(rule, store, x)
    decreases |rows|
  {
    if rows == [] then []
    else
      var init := Select(rows[..|rows| - 1], rule, store);
      var last := rows[|rows| - 1];
      assert forall x :: x in rows <==> x in rows[..|rows| - 1] || x == last;
      if Visible(rule, store, last) then init + [last] else init
  }

  /** The filter keeps every record the rule admits as often as it occurs, and
      no other record. */
  lemma {:induction false} SelectCounts(rows: seq<Row>, rule: Rule, store: StoreId)
    ensures forall x :: multiset(Select(rows, rule, store))[x] == if Visible(rule, store, x) then multiset(rows)[x] else 0
    decreases |rows|
  {
    if rows != [] {
      var init := rows[..|rows| - 1];
      SelectCounts(init, rule, store);
      assert rows == init + [rows[|rows| - 1]];
    }
  }

  /** The kept records stay in their order: one more record at the end keeps
      the earlier selection and is appended exactly when the rule admits it. */
  lemma SelectSnoc(rows: seq<Row>, x: Row, rule: Rule, store: StoreId)
    ensures Select([], rule, store) == []
    ensures Select(rows + [x], rule, store) == Select(rows, rule, store) + (if Visible(rule, store, x) then [x] else [])
  {
    assert (rows + [x])[..|rows|] == rows;
  }

  /** `filter_by_user_store`. The first test reads
      `is_superuser or (is_staff and not hasattr(user, 'profile') or profile.store is None)`,
      so it passes the records through for a superuser, for staff without a
      profile, and for any user whose profile has no store; for anyone else
      without a profile it raises, which is None here. A store-assigned user is
      narrowed by the first relation the model has. */
  function FilterByUserStore(rows: seq<Row>, model: Relations, user: User): (r: Option<seq<Row>>)
    ensures r.None? <==> !user.superuser && !user.staff && user.profile.None?
    ensures r.Some? ==> forall x :: x in r.value ==> x in rows
    ensures r.Some? && r.value != rows ==>
      !user.superuser && user.profile.Some? && user.profile.value.store.Some?
  {
    if user.superuser || (user.staff && user.profile.None?) then Some(rows)
    else if user.profile.None? then None
    else if user.profile.value.store.None? then Some(rows)
    else Some(Select(rows, RuleFor(model), user.profile.value.store.value))
  }

  /** A record reaches a store-assigned, non-superuser user exactly when the
      first relation its model has leads to the user's store, as often as it
      occurs among the records; a direct `store`
      field takes priority over every other relation, and a model with no
      relation is passed through unchanged. */
  lemma FilterForAssignedUser(rows: seq<Row>, model: Relations, user: User, store: StoreId)
    requires !user.superuser && user.profile.Some? && user.profile.value.store == Some(store)
    ensures FilterByUserStore(rows, model, user).Some?
    ensures forall x :: x in FilterByUserStore(rows, model, user).value <==>
      x in rows && Visible(RuleFor(model), store, x)
    ensures forall x :: multiset(FilterByUserStore(rows, model, user).value)[x] ==
                        if Visible(RuleFor(model), store, x) then multiset(rows)[x] else 0
    ensures model.store ==> forall x :: x in FilterByUserStore(rows, model, user).value <==>
      x in rows && x.store == Some(store)
    ensures !model.store && !model.scooter && !model.part && !model.ends ==>
      FilterByUserStore(rows, model, user).value == rows
  {
    SelectCounts(rows, RuleFor(model), store);
    if RuleFor(model) == Everything {
      SelectEverything(rows, store);
    }
  }

  lemma {:induction false} SelectEverything(rows: seq<Row>, store: StoreId)
    ensures Select(rows, Everything, store) == rows
    decreases |rows|
  {
    if rows != [] {
      SelectEverything(rows[..|rows| - 1], store);
      assert rows[..|rows| - 1] + [rows[|rows| - 1]] == rows;
    }
  }

  /** The filter and `get_accessible_stores` disagree about a user who is
      neither staff nor superuser and has no store: the filter shows them the
      records of every store, while they may work with no store at all. */
  lemma StorelessUserSeesEverything(rows: seq<Row>, model: Relations, user: User, stores: set<StoreId>)
    requires !user.superuser && !user.staff && user.profile.Some? && user.profile.value.store.None?
    ensures FilterByUserStore(rows, model, user) == Some(rows)
    ensures AccessibleStores(stores, user.superuser, user.staff, user.profile.value.store) == {}
  {
  }

  // ---------------------------------------------------------------------
  // StoreAccessMiddleware.process_view
  // ---------------------------------------------------------------------

  /** The middleware lets the request through (None), answers 403, or raises
      `Resolver404` from `resolve` (which the framework turns into a 404). */
  datatype Verdict = Pass | Forbidden | NotFound

  predicate StartsWith(s: string, prefix: string)
  {
    |prefix| <= |s| && s[..|prefix|] == prefix
  }

  /** Paths the middleware never looks into. */
  predicate ExemptPath(path: string)
  {
    || StartsWith(path, "/admin/") || StartsWith(path, "/static/") || path == "/"
    || StartsWith(path, "/accounts/") || StartsWith(path, "/landing/")
  }

  predicate ExemptApp(app: string)
  {
    app == "landing" || app == "dashboard" || app == "admin"
  }


  /** `view_kwargs.get('store_id') or request.POST.get('store_id')`. */
  function StoreArgument(kwarg: Option<string>, posted: Option<string>): (r: Option<string>)
    ensures Given(r) <==> Given(kwarg) || Given(posted)
    ensures Given(kwarg) ==> r == kwarg
  {
    if Given(kwarg) then kwarg else posted
  }

  /** The decision of `process_view` for a request on `path`, which `resolve`
      maps to the application `app` (None: the path does not resolve). Reading
      `user.profile` without a profile, or `int()` of a store id that is not a
      number, raises inside the `try`, and the request passes. */
  function Decide(user: User, path: string, app: Option<string>, isGet: bool, kwarg: Option<string>, posted: Option<string>): Verdict
  {
    if !user.authenticated || ExemptPath(path) || user.superuser then Pass
    else if app.None? then NotFound
    else if ExemptApp(app.value) then Pass
    else if user.profile.None? then Pass
    else
      var store := user.profile.value.store;
      var arg := StoreArgument(kwarg, posted);
      if user.staff && store.None? then Pass
      else if isGet then Pass
      else if Given(arg) && store.Some? then
        match ParseInt(arg.value)
        case None => Pass
        case Some(n) => if n != store.value then Forbidden else Pass
      else Pass
  }

  /** Exactly one kind of request is refused: a non-GET request from an
      authenticated, store-assigned user who is not a superuser, on a checked
      path of a checked application, that names a numeric store id other than
      the user's store. */
  lemma ForbiddenExactly(user: User, path: string, app: Option<string>, isGet: bool, kwarg: Option<string>, posted: Option<string>)
    ensures Decide(user, path, app, isGet, kwarg, posted) == Forbidden <==>
      && user.authenticated && !ExemptPath(path) && !user.superuser
      && app.Some? && !ExemptApp(app.value)
      && user.profile.Some? && user.profile.value.store.Some?
      && !isGet
      && Given(StoreArgument(kwarg, posted))
      && ParseInt(StoreArgument(kwarg, posted).value).Some?
      && ParseInt(StoreArgument(kwarg, posted).value).value != user.profile.value.store.value
  {
  }

  /** Only an authenticated non-superuser on a checked path whose path does
      not resolve gets a 404 from the middleware itself. */
  lemma NotFoundExactly(user: User, path: string, app: Option<string>, isGet: bool, kwarg: Option<string>, posted: Option<string>)
    ensures Decide(user, path, app, isGet, kwarg, posted) == NotFound <==>
      user.authenticated && !ExemptPath(path) && !user.superuser && app.None?
  {
  }

  /** A GET request is never refused, nor is a request naming the user's own
      store, nor one whose store id is not a number (fail open). */
  lemma NeverForbidden(user: User, path: string, app: Option<string>, kwarg: Option<string>, posted: Option<string>, isGet: bool)
    ensures Decide(user, path, app, true, kwarg, posted) != Forbidden
    ensures user.profile.Some? && user.profile.value.store.Some? && StoreArgument(kwarg, posted) == Some(NatToString(user.profile.value.store.value)) ==>
      Decide(user, path, app, isGet, kwarg, posted) != Forbidden
    ensures Given(StoreArgument(kwarg, posted)) && ParseInt(StoreArgument(kwarg, posted).value).None? ==>
      Decide(user, path, app, isGet, kwarg, posted) != Forbidden
  {
    if user.profile.Some? && user.profile.value.store.Some? && StoreArgument(kwarg, posted) == Some(NatToString(user.profile.value.store.value)) {
      NatToStringDigits(user.profile.value.store.value);
      ParseDigits(NatToString(user.profile.value.store.value));
      NatToStringValue(user.profile.value.store.value);
    }
  }

  /** The request object as far as the middleware writes to it. */
  class Request {
    var userStoreId: Option<StoreId>

    constructor ()
      ensures userStoreId.None?
    {
      userStoreId := None;
    }
  }

  /** A GET request from a store-assigned user who reaches the GET branch
      carries that store's id afterwards. */
  predicate RecordsStore(user: User, path: string, app: Option<string>, isGet: bool)
  {
    && user.authenticated && !ExemptPath(path) && !user.superuser
    && app.Some? && !ExemptApp(app.value)
    && user.profile.Some? && user.profile.value.store.Some?
    && isGet
  }

  /** `process_view`: the decision, and for a GET request of a store-assigned
      user, `request.user_store_id` set to the user's store. */
  method ProcessView(request: Request, user: User, path: string, app: Option<string>, isGet: bool, kwarg: Option<string>, posted: Option<string>)
    returns (verdict: Verdict)
    modifies request
    ensures verdict == Decide(user, path, app, isGet, kwarg, posted)
    ensures RecordsStore(user, path, app, isGet) ==> request.userStoreId == user.profile.value.store
    ensures !RecordsStore(user, path, app, isGet) ==> request.userStoreId == old(request.userStoreId)
  {
    if !user.authenticated || ExemptPath(path) || user.superuser {
      return Pass;
    }
    if app.None? {
      return NotFound;
    }
    if ExemptApp(app.value) || user.profile.None? {
      return Pass;
    }
    var store := user.profile.value.store;
    if user.staff && store.None? {
      return Pass;
    }
    if isGet {
      if store.Some? {
        request.userStoreId := store;
      }
      return Pass;
    }
    var arg := StoreArgument(kwarg, posted);
    verdict := Pass;
    if Given(arg) && store.Some? {
      var n := ParseInt(arg.value);
      if n.Some? && n.value != store.value {
        verdict := Forbidden;
      }
    }
  }

  // ---------------------------------------------------------------------
  // The user_store context processor
  // ---------------------------------------------------------------------

  /** What every template is told: the user's store and whether the user is
      limited to it. */
  datatype StoreContext = StoreContext(userStore: Option<StoreId>, isStoreLimited: bool)

  function UserStore(user: User): (r: StoreContext)
    ensures r.isStoreLimited <==> r.userStore.Some?
    ensures !user.authenticated || user.superuser ==> r == StoreContext(None, false)
    ensures user.authenticated && !user.superuser && user.profile.Some? ==> r.userStore == user.profile.value.store
    ensures user.profile.None? ==> r.userStore.None?
  {
    if !user.authenticated || user.superuser then StoreContext(None, false)
    else if user.profile.Some? && user.profile.value.store.Some? then StoreContext(user.profile.value.store, true)
    else StoreContext(None, false)
  }

  /** A user the templates show as limited has no full access, may work with
      their store only, and sees only that store's records of a model with a
      direct `store` field. */
  lemma LimitedUsersAgree(user: User, stores: set<StoreId>, rows: seq<Row>, model: Relations)
    requires UserStore(user).isStoreLimited && UserStore(user).userStore.value in stores
    ensures user.profile.Some? && !HasFullAccess(user.superuser, user.staff, user.profile.value.store)
    ensures AccessibleStores(stores, user.superuser, user.staff, user.profile.value.store) == {UserStore(user).userStore.value}
    ensures model.store ==> forall x :: x in FilterByUserStore(rows, model, user).value <==>
      x in rows && x.store == UserStore(user).userStore
  {
    FilterForAssignedUser(rows, model, user, UserStore(user).userStore.value);
  }

  // ---------------------------------------------------------------------
  // The post_save receivers on User
  // ---------------------------------------------------------------------

  const BlankProfile := Profile(None, "", "", "")

  /** The user and profile tables. A profile belongs to an existing user, and
      user keys come from a counter. */
  class Accounts {
    var users: set<Id>
    var profiles: map<Id, Profile>
    var nextUser: Id

    ghost predicate Valid()
      reads this
    {
      profiles.Keys <= users && forall u :: u in users ==> u < nextUser
    }

    constructor ()
      ensures Valid() && users == {} && profiles == map[]
    {
      users, profiles, nextUser := {}, map[], 0;
    }

    /** `create_user_profile`: a profile with no store for a user just
        created. */
    method CreateUserProfile(user: Id, created: bool)
      requires Valid() && user in users && (created ==> user !in profiles)
      modifies this`profiles
      ensures Valid()
      ensures profiles == if created then old(profiles)[user := BlankProfile] else old(profiles)
    {
      if created {
        profiles := profiles[user := BlankProfile];
      }
    }

    /** `save_user_profile`: an existing profile is saved as it is; a user
        without one gets one. */
    method SaveUserProfile(user: Id)
      requires Valid() && user in users
      modifies this`profiles
      ensures Valid()
      ensures user in old(profiles) ==> profiles == old(profiles)
      ensures user !in old(profiles) ==> profiles == old(profiles)[user := BlankProfile]
    {
      if user !in profiles {
        profiles := profiles[user := BlankProfile];
      }
    }

    /** The `post_save` signal for a user, both receivers in the order they
        are registered. A saved user ends with exactly one profile: a new user
        gets a blank one, and an existing profile is kept as it is. */
    method UserSaved(user: Id, created: bool)
      requires Valid() && user in users && (created ==> user !in profiles)
      modifies this`profiles
      ensures Valid() && user in profiles
      ensures user in old(profiles) ==> profiles == old(profiles)
      ensures user !in old(profiles) ==> profiles == old(profiles)[user := BlankProfile]
    {
      CreateUserProfile(user, created);
      SaveUserProfile(user);
    }

    /** `User.objects.create`: a new user row, then its `post_save` signal. The
        new user has no assigned store, so only a superuser or staff flag
        gives them full access. */
    method CreateUser() returns (user: Id)
      requires Valid()
      modifies this
      ensures Valid() && user !in old(users) && users == old(users) + {user}
      ensures profiles == old(profiles)[user := BlankProfile]
    {
      user := nextUser;
      users := users + {user};
      nextUser := nextUser + 1;
      UserSaved(user, true);
    }
  }

  /** A newly created user's profile carries no store: with neither flag set
      they may work with no store, but the record filter shows them every
      store's records. */
  lemma NewUserAccess(stores: set<StoreId>, rows: seq<Row>, model: Relations)
    ensures AccessibleStores(stores, false, false, BlankProfile.store) == {}
    ensures FilterByUserStore(rows, model, User(true, false, false, Some(BlankProfile))) == Some(rows)
    ensures HasFullAccess(false, true, BlankProfile.store)
  {
  }
}
