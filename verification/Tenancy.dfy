/** Users, organizations, memberships and the one namespace they share. */
module Tenancy {
  import opened Text

  datatype Role = Owner | Admin | Member | OtherRole(text: string)

  datatype User = User(name: string, email: string)

  datatype Org = Org(slug: string, owner: nat)

  /** A membership row. The table has no unique key on its columns. */
  datatype Seat = Seat(org: nat, user: nat, role: Role)

  datatype Invite = Invite(forOrg: bool, org: Option<nat>, role: Role, email: string,
                           maxUses: int, uses: int, expires: int, revoked: bool)

  /** The tables, and `created`, the history of every name ever registered. */
  datatype Tables = Tables(
    users: map<nat, User>,
    nextUser: nat,
    orgs: map<nat, Org>,
    nextOrg: nat,
    seats: seq<Seat>,
    tombstones: seq<string>,
    invites: map<string, Invite>,
    created: seq<string>)

  const EMPTY := Tables(map[], 0, map[], 0, [], [], map[], [])

  datatype Mode = Closed | ByInvite | Open

  datatype Config = Config(blocked: string -> bool, registration: Mode, creation: Mode, maxOrgs: int, maxMembers: int)

  datatype Error =
    Validation | Reserved | Unavailable | Disallowed | InviteRequired | InviteInvalid | NotFound |
    Conflict | Quota | LastOwner | Unauthenticated | Internal

  datatype Reply = Accepted | Refused(error: Error)

  // ------------------------------------------------------------------- names

  function Lower(c: char): char
  {
    if 'A' <= c <= 'Z' then c - 'A' + 'a' else c
  }

  function ToLower(s: string): (r: string)
    ensures |r| == |s| && forall i :: 0 <= i < |s| ==> r[i] == Lower(s[i])
  {
    seq(|s|, i requires 0 <= i < |s| => Lower(s[i]))
  }

  function NormalizeName(s: string): string
  {
    ToLower(TrimSpace(s))
  }

  /** Normalizing twice is normalizing once, so stored names are normal forms. */
  lemma NormalizeIsIdempotent(s: string)
    ensures NormalizeName(NormalizeName(s)) == NormalizeName(s)
  {
    var t := TrimSpace(s);
    var r := ToLower(t);
    assert forall i :: 0 <= i < |t| ==> IsSpace(r[i]) == IsSpace(t[i]);
    assert TrimSpace(r) == r by { if r == [] { assert TrimSpace([]) == []; } }
    assert ToLower(r) == r;
  }

  predicate NameChar(c: char)
  {
    'a' <= c <= 'z' || '0' <= c <= '9' || c == '-'
  }

  /** The rules for usernames and slugs alike. */
  predicate ValidName(s: string)
  {
    && 2 <= |s| <= 39
    && s[0] != '-' && s[|s| - 1] != '-'
    && (forall i :: 0 <= i < |s| ==> NameChar(s[i]))
    && (forall i :: 0 <= i < |s| - 1 ==> !(s[i] == '-' && s[i + 1] == '-'))
  }

  predicate NameTaken(t: Tables, name: string)
  {
    (exists u :: u in t.users && t.users[u].name == name) || (exists o :: o in t.orgs && t.orgs[o].slug == name)
  }

  /** `CheckName`, for a name that is already normalized. */
  function CheckName(t: Tables, cfg: Config, name: string): Reply
  {
    if !ValidName(name) then Refused(Validation)
    else if cfg.blocked(name) then Refused(Reserved)
    else if NameTaken(t, name) || name in t.tombstones then Refused(Unavailable)
    else Accepted
  }

  // ------------------------------------------------------------------- seats

  function RoleOf(seats: seq<Seat>, org: nat, user: nat): Option<Role>
  {
    if seats == [] then None
    else if seats[0].org == org && seats[0].user == user then Some(seats[0].role)
    else RoleOf(seats[1..], org, user)
  }

  function CountOwners(seats: seq<Seat>, org: nat): nat
  {
    if seats == [] then 0
    else CountOwners(seats[..|seats| - 1], org) + if seats[|seats| - 1].org == org && seats[|seats| - 1].role == Owner then 1 else 0
  }

  function CountMembers(seats: seq<Seat>, org: nat): nat
  {
    if seats == [] then 0
    else CountMembers(seats[..|seats| - 1], org) + if seats[|seats| - 1].org == org then 1 else 0
  }

  function CountOwned(t: Tables, user: nat): nat
  {
    |set o | o in t.orgs && t.orgs[o].owner == user|
  }

  /** `UPDATE org_members SET role WHERE org_id AND user_id`. */
  function Reseated(seats: seq<Seat>, org: nat, user: nat, role: Role): seq<Seat>
  {
    seq(|seats|, i requires 0 <= i < |seats| => if seats[i].org == org && seats[i].user == user then seats[i].(role := role) else seats[i])
  }

  /** `DELETE FROM org_members WHERE` the condition `keep` denies. */
  function Kept(seats: seq<Seat>, keep: Seat -> bool): seq<Seat>
  {
    if seats == [] then []
    else Kept(seats[..|seats| - 1], keep) + if keep(seats[|seats| - 1]) then [seats[|seats| - 1]] else []
  }

  function FindUser(users: map<nat, User>, name: string, n: nat): (r: Option<nat>)
    ensures r.Some? ==> r.value in users && users[r.value].name == name
  {
    if n == 0 then None
    else if n - 1 in users && users[n - 1].name == name then Some(n - 1)
    else FindUser(users, name, n - 1)
  }

  // -------------------------------------------------------------- operations

  predicate Usable(i: Invite, now: int)
  {
    !i.revoked && !(i.expires > 0 && now > i.expires) && (i.maxUses == 0 || i.uses < i.maxUses)
  }

  predicate Consumable(i: Invite, now: int)
  {
    !i.revoked && (i.maxUses == 0 || i.uses < i.maxUses) && (i.expires == 0 || i.expires > now)
  }

  function Consumed(t: Tables, code: string): Tables
    requires code in t.invites
  {
    t.(invites := t.invites[code := t.invites[code].(uses := t.invites[code].uses + 1)])
  }

  predicate Grantable(role: Role)
  {
    role == Admin || role == Member
  }

  /** Any role an invite names other than admin comes down to member. */
  function SeatRole(role: Role): Role
  {
    if Grantable(role) then role else Member
  }

  function WithUser(t: Tables, name: string, email: string): Tables
  {
    t.(users := t.users[t.nextUser := User(name, email)], nextUser := t.nextUser + 1, created := t.created + [name])
  }

  function WithSeat(t: Tables, seat: Seat): Tables
  {
    t.(seats := t.seats + [seat])
  }

  /** The account first; then the invite is spent and may seat it. */
  function Admitted(t: Tables, name: string, email: string, code: string, now: int): (Tables, Reply)
    requires code in t.invites
  {
    var joined := WithUser(t, name, email);
    if !Consumable(t.invites[code], now) then (joined, Refused(Internal))
    else
      var used := Consumed(joined, code);
      match t.invites[code].org
      case None => (used, Accepted)
      case Some(org) => (WithSeat(used, Seat(org, t.nextUser, SeatRole(t.invites[code].role))), Accepted)
  }

  /** `wellFormed` stands for the checks of the address and the password. */
  function Register(t: Tables, cfg: Config, username: string, email: string, wellFormed: bool, code: string, now: int): (Tables, Reply)
  {
    var name := NormalizeName(username);
    if !ValidName(name) || !wellFormed then (t, Refused(Validation))
    else if cfg.registration == Closed then (t, Refused(Disallowed))
    else if cfg.registration == ByInvite && TrimSpace(code) == "" then (t, Refused(InviteRequired))
    else if cfg.registration == ByInvite &&
            !(code in t.invites && Usable(t.invites[code], now) && !t.invites[code].forOrg &&
              (t.invites[code].email == "" || t.invites[code].email == email)) then (t, Refused(InviteInvalid))
    else if CheckName(t, cfg, name) != Accepted then (t, CheckName(t, cfg, name))
    else if exists u :: u in t.users && t.users[u].email == email then (t, Refused(Unavailable))
    else if cfg.registration == ByInvite then Admitted(t, name, email, code, now)
    else (WithUser(t, name, email), Accepted)
  }

  function WithOrg(t: Tables, slug: string, owner: nat): Tables
  {
    t.(orgs := t.orgs[t.nextOrg := Org(slug, owner)], nextOrg := t.nextOrg + 1,
       seats := t.seats + [Seat(t.nextOrg, owner, Owner)], created := t.created + [slug])
  }

  /** The part of `CreateOrg` after the invite, if one is needed, is spent. */
  function OpenOrg(t: Tables, cfg: Config, creator: nat, text: string, fieldsOk: bool): (Tables, Reply)
  {
    var slug := NormalizeName(text);
    if CheckName(t, cfg, slug) != Accepted then (t, CheckName(t, cfg, slug))
    else if cfg.maxOrgs > 0 && CountOwned(t, creator) >= cfg.maxOrgs then (t, Refused(Quota))
    else if !fieldsOk then (t, Refused(Validation))
    else (WithOrg(t, slug, creator), Accepted)
  }

  function CreateOrg(t: Tables, cfg: Config, creator: nat, text: string, fieldsOk: bool, code: string, now: int): (Tables, Reply)
  {
    if cfg.creation == Closed then (t, Refused(Disallowed))
    else if cfg.creation == Open then OpenOrg(t, cfg, creator, text, fieldsOk)
    else if TrimSpace(code) == "" then (t, Refused(InviteRequired))
    else if !(code in t.invites && Usable(t.invites[code], now) && t.invites[code].forOrg && t.invites[code].org.None? &&
              Consumable(t.invites[code], now)) then (t, Refused(InviteInvalid))
    else OpenOrg(Consumed(t, code), cfg, creator, text, fieldsOk)
  }

  predicate Full(t: Tables, cfg: Config, org: nat)
  {
    cfg.maxMembers > 0 && CountMembers(t.seats, org) >= cfg.maxMembers
  }

  function AddOrgMember(t: Tables, cfg: Config, org: nat, username: string, role: Role): (Tables, Reply)
  {
    if !Grantable(role) then (t, Refused(Validation))
    else if Full(t, cfg, org) then (t, Refused(Quota))
    else
      match FindUser(t.users, NormalizeName(username), t.nextUser)
      case None => (t, Refused(NotFound))
      case Some(u) =>
        if RoleOf(t.seats, org, u).Some? then (t, Refused(Conflict)) else (WithSeat(t, Seat(org, u, role)), Accepted)
  }

  function SetOrgMemberRole(t: Tables, org: nat, target: nat, role: Role): (Tables, Reply)
  {
    if !Grantable(role) then (t, Refused(Validation))
    else
      match RoleOf(t.seats, org, target)
      case None => (t, Refused(NotFound))
      case Some(current) =>
        if current == Owner && CountOwners(t.seats, org) <= 1 then (t, Refused(LastOwner))
        else (t.(seats := Reseated(t.seats, org, target, role)), Accepted)
  }

  function RemoveOrgMember(t: Tables, org: nat, target: nat): (Tables, Reply)
  {
    match RoleOf(t.seats, org, target)
    case None => (t, Refused(NotFound))
    case Some(current) =>
      if current == Owner && CountOwners(t.seats, org) <= 1 then (t, Refused(LastOwner))
      else (t.(seats := Kept(t.seats, (s: Seat) => !(s.org == org && s.user == target))), Accepted)
  }

  function Transferred(t: Tables, org: nat, from: nat, to: nat): Tables
  {
    t.(seats := Reseated(Reseated(t.seats, org, to, Owner), org, from, Admin),
       orgs := if org in t.orgs then t.orgs[org := t.orgs[org].(owner := to)] else t.orgs)
  }

  function TransferOrgOwnership(t: Tables, org: nat, actor: nat, target: nat): (Tables, Reply)
  {
    if actor == target then (t, Refused(Validation))
    else if RoleOf(t.seats, org, target).None? then (t, Refused(NotFound))
    else (Transferred(t, org, actor, target), Accepted)
  }

  function InviteOrgMember(t: Tables, cfg: Config, org: nat, email: string, wellFormed: bool, role: Role, code: string, expires: int): (Tables, Reply)
  {
    if !Grantable(role) || !wellFormed then (t, Refused(Validation))
    else if Full(t, cfg, org) then (t, Refused(Quota))
    else if org !in t.orgs then (t, Refused(NotFound))
    else (t.(invites := t.invites[code := Invite(true, Some(org), role, email, 1, 0, expires, false)]), Accepted)
  }

  /** A registration invite; a use count of 0 is stored as 1. */
  function CreateUserInvite(t: Tables, email: string, wellFormed: bool, maxUses: int, code: string, expires: int): (Tables, Reply)
  {
    if !wellFormed || maxUses < 0 || maxUses > 1000 then (t, Refused(Validation))
    else
      var uses := if maxUses == 0 then 1 else maxUses;
      (t.(invites := t.invites[code := Invite(false, None, OtherRole(""), email, uses, 0, expires, false)]), Accepted)
  }

  /** Cancels an invitation of this organization; any other is left alone. */
  function RevokeOrgInvite(t: Tables, org: nat, code: string): (Tables, Reply)
  {
    if code in t.invites && t.invites[code].org == Some(org)
    then (t.(invites := t.invites[code := t.invites[code].(revoked := true)]), Accepted)
    else (t, Accepted)
  }

  function AcceptOrgInvite(t: Tables, cfg: Config, user: nat, code: string, now: int): (Tables, Reply)
  {
    if !(code in t.invites && Usable(t.invites[code], now) && t.invites[code].forOrg && t.invites[code].org.Some?) then (t, Refused(InviteInvalid))
    else if user !in t.users then (t, Refused(Unauthenticated))
    else
      var i := t.invites[code];
      var org := i.org.value;
      if (i.email != "" && i.email != t.users[user].email) || org !in t.orgs then (t, Refused(InviteInvalid))
      else if Full(t, cfg, org) then (t, Refused(Quota))
      else if !Consumable(i, now) then (t, Refused(InviteInvalid))
      else (WithSeat(Consumed(t, code), Seat(org, user, SeatRole(i.role))), Accepted)
  }

  function DeleteOrg(t: Tables, org: nat, confirm: string): (Tables, Reply)
  {
    if org !in t.orgs then (t, Refused(NotFound))
    else if NormalizeName(confirm) != t.orgs[org].slug then (t, Refused(Validation))
    else (t.(tombstones := t.tombstones + [t.orgs[org].slug],
             seats := Kept(t.seats, (s: Seat) => s.org != org),
             invites := map c | c in t.invites && t.invites[c].org != Some(org) :: t.invites[c],
             orgs := t.orgs - {org}), Accepted)
  }

  /** `passwordOk` stands for the password check. */
  function DeleteAccount(t: Tables, user: nat, passwordOk: bool): (Tables, Reply)
  {
    if user !in t.users then (t, Refused(Unauthenticated))
    else if !passwordOk then (t, Refused(Unauthenticated))
    else if CountOwned(t, user) > 0 then (t, Refused(Conflict))
    else (t.(tombstones := t.tombstones + [t.users[user].name],
             seats := Kept(t.seats, (s: Seat) => s.user != user),
             users := t.users - {user}), Accepted)
  }

  // --------------------------------------------------------------- invariant

  predicate SamePlace(a: Seat, b: Seat)
  {
    a.org == b.org && a.user == b.user
  }

  predicate Distinct(seats: seq<Seat>)
  {
    forall j, k :: 0 <= j < k < |seats| ==> !SamePlace(seats[j], seats[k])
  }

  /** Each member is seated once, in an organization and by a user that exist. */
  predicate SeatsOk(t: Tables)
  {
    Distinct(t.seats) && forall s :: s in t.seats ==> s.org in t.orgs && s.user in t.users
  }

  /** The recorded owner holds the owner seat, and nobody else does. */
  predicate OwnersOk(t: Tables)
  {
    && (forall o :: o in t.orgs ==> t.orgs[o].owner in t.users && Seat(o, t.orgs[o].owner, Owner) in t.seats)
    && (forall s :: s in t.seats && s.org in t.orgs ==> (s.role == Owner <==> s.user == t.orgs[s.org].owner))
  }

  predicate IdsOk(t: Tables)
  {
    && (forall u :: u in t.users ==> u < t.nextUser)
    && (forall o :: o in t.orgs ==> o < t.nextOrg)
    && (forall c :: c in t.invites && t.invites[c].org.Some? ==> t.invites[c].org.value in t.orgs)
  }

  predicate NoRepeats(names: seq<string>)
  {
    forall j, k :: 0 <= j < k < |names| ==> names[j] != names[k]
  }

  predicate LiveNamesOk(t: Tables)
  {
    && (forall u, v :: u in t.users && v in t.users && t.users[u].name == t.users[v].name ==> u == v)
    && (forall o, p :: o in t.orgs && p in t.orgs && t.orgs[o].slug == t.orgs[p].slug ==> o == p)
    && (forall u, o :: u in t.users && o in t.orgs ==> t.users[u].name != t.orgs[o].slug)
  }

  ghost predicate HistoryOk(t: Tables)
  {
    && NoRepeats(t.tombstones) && NoRepeats(t.created)
    && (forall n :: NameTaken(t, n) ==> n !in t.tombstones)
    && (forall n :: n in t.created <==> NameTaken(t, n) || n in t.tombstones)
  }

  /** Live usernames, live slugs and tombstones are pairwise different, and
      together they are every name ever created, each created once. */
  ghost predicate NamesOk(t: Tables)
  {
    LiveNamesOk(t) && HistoryOk(t)
  }

  ghost predicate Inv(t: Tables)
  {
    IdsOk(t) && SeatsOk(t) && OwnersOk(t) && NamesOk(t)
  }

  // ------------------------------------------------------------- seat lemmas

  lemma {:induction false} RoleOfFacts(seats: seq<Seat>, org: nat, user: nat)
    ensures RoleOf(seats, org, user).None? <==> forall s :: s in seats ==> !(s.org == org && s.user == user)
    ensures RoleOf(seats, org, user).Some? ==> Seat(org, user, RoleOf(seats, org, user).value) in seats
  {
    if seats != [] {
      RoleOfFacts(seats[1..], org, user);
      assert seats == [seats[0]] + seats[1..];
    }
  }

  lemma {:induction false} KeptFacts(seats: seq<Seat>, keep: Seat -> bool)
    ensures forall s :: s in Kept(seats, keep) <==> s in seats && keep(s)
    ensures Distinct(seats) ==> Distinct(Kept(seats, keep))
  {
    if seats != [] {
      var init, last := seats[..|seats| - 1], seats[|seats| - 1];
      KeptFacts(init, keep);
      assert seats == init + [last];
      if Distinct(seats) {
        assert forall s :: s in init ==> !SamePlace(s, last);
      }
    }
  }

  lemma ReseatedFacts(seats: seq<Seat>, org: nat, user: nat, role: Role)
    ensures forall s :: s in Reseated(seats, org, user, role) && !(s.org == org && s.user == user) ==> s in seats
    ensures forall s :: s in Reseated(seats, org, user, role) && s.org == org && s.user == user ==>
              s.role == role && RoleOf(seats, org, user).Some?
    ensures forall s :: s in seats && !(s.org == org && s.user == user) ==> s in Reseated(seats, org, user, role)
    ensures forall s :: s in seats && s.org == org && s.user == user ==> Seat(org, user, role) in Reseated(seats, org, user, role)
    ensures Distinct(seats) ==> Distinct(Reseated(seats, org, user, role))
  {
    var out := Reseated(seats, org, user, role);
    RoleOfFacts(seats, org, user);
    hide RoleOf;
    forall s | s in out && s.org == org && s.user == user ensures s.role == role && RoleOf(seats, org, user).Some? {
      var i :| 0 <= i < |out| && out[i] == s;
      assert seats[i] in seats;
    }
    forall s | s in seats && s.org == org && s.user == user ensures Seat(org, user, role) in out {
      var i :| 0 <= i < |seats| && seats[i] == s;
      assert out[i] == Seat(org, user, role);
    }
    forall s | s in seats && !(s.org == org && s.user == user) ensures s in out {
      var i :| 0 <= i < |seats| && seats[i] == s;
      assert out[i] == s;
    }
  }

  /** The guard's count is exact: one owner seat for every organization. */
  lemma {:induction false} OneOwnerSeat(seats: seq<Seat>, org: nat, owner: nat)
    requires Distinct(seats) && forall s :: s in seats && s.org == org && s.role == Owner ==> s.user == owner
    ensures CountOwners(seats, org) == if Seat(org, owner, Owner) in seats then 1 else 0
  {
    if seats != [] {
      var init, last := seats[..|seats| - 1], seats[|seats| - 1];
      assert seats == init + [last];
      OneOwnerSeat(init, org, owner);
      if last == Seat(org, owner, Owner) {
        assert forall s :: s in init ==> !SamePlace(s, last);
      }
    }
  }

  lemma OwnerCount(t: Tables, org: nat)
    requires SeatsOk(t) && OwnersOk(t) && org in t.orgs
    ensures CountOwners(t.seats, org) == 1
  {
    OneOwnerSeat(t.seats, org, t.orgs[org].owner);
  }

  // ------------------------------------------------------------- name lemmas

  /** The names depend on the users, the slugs and the two histories alone. */
  lemma NamesSame(t: Tables, d: Tables)
    requires NamesOk(t) && d.users == t.users && d.tombstones == t.tombstones && d.created == t.created
    requires d.orgs.Keys == t.orgs.Keys && forall o :: o in t.orgs ==> d.orgs[o].slug == t.orgs[o].slug
    ensures NamesOk(d)
  {
    forall n ensures NameTaken(d, n) == NameTaken(t, n) {
      if o :| o in t.orgs && t.orgs[o].slug == n {
        assert o in d.orgs && d.orgs[o].slug == n;
      }
      if o :| o in d.orgs && d.orgs[o].slug == n {
        assert o in t.orgs && t.orgs[o].slug == n;
      }
    }
    hide NameTaken;
  }

  lemma CreatedSnoc(names: seq<string>, n: string)
    requires NoRepeats(names) && n !in names
    ensures NoRepeats(names + [n])
    ensures forall m :: m in names + [n] <==> m in names || m == n
  {
  }

  lemma TakenAfterUser(t: Tables, name: string, email: string)
    requires IdsOk(t)
    ensures forall n :: NameTaken(WithUser(t, name, email), n) <==> NameTaken(t, n) || n == name
  {
    var d := WithUser(t, name, email);
    forall n ensures NameTaken(d, n) <==> NameTaken(t, n) || n == name {
      assert d.users[t.nextUser].name == name;
      if u :| u in t.users && t.users[u].name == n {
        assert d.users[u].name == n;
      }
    }
  }

  /** Appending a free name to the history. */
  lemma HistoryGrows(t: Tables, d: Tables, name: string)
    requires HistoryOk(t) && !NameTaken(t, name) && name !in t.tombstones
    requires d.created == t.created + [name] && d.tombstones == t.tombstones
    requires forall n :: NameTaken(d, n) <==> NameTaken(t, n) || n == name
    ensures HistoryOk(d)
  {
    CreatedSnoc(t.created, name);
    hide NameTaken;
    hide NoRepeats;
  }

  /** A name that is neither taken nor tombstoned was never created before. */
  lemma UserNameKeeps(t: Tables, name: string, email: string)
    requires NamesOk(t) && IdsOk(t) && !NameTaken(t, name) && name !in t.tombstones
    ensures NamesOk(WithUser(t, name, email))
  {
    hide HistoryOk;
    TakenAfterUser(t, name, email);
    HistoryGrows(t, WithUser(t, name, email), name);
    assert forall u :: u in t.users ==> t.users[u].name != name;
    assert forall o :: o in t.orgs ==> t.orgs[o].slug != name;
    hide NameTaken;
  }

  lemma TakenAfterOrg(t: Tables, slug: string, owner: nat)
    requires IdsOk(t)
    ensures forall n :: NameTaken(WithOrg(t, slug, owner), n) <==> NameTaken(t, n) || n == slug
  {
    var d := WithOrg(t, slug, owner);
    forall n ensures NameTaken(d, n) <==> NameTaken(t, n) || n == slug {
      assert d.orgs[t.nextOrg].slug == slug;
      if o :| o in t.orgs && t.orgs[o].slug == n {
        assert d.orgs[o].slug == n;
      }
    }
  }

  lemma SlugKeeps(t: Tables, slug: string, owner: nat)
    requires NamesOk(t) && IdsOk(t) && !NameTaken(t, slug) && slug !in t.tombstones
    ensures NamesOk(WithOrg(t, slug, owner))
  {
    hide HistoryOk;
    TakenAfterOrg(t, slug, owner);
    HistoryGrows(t, WithOrg(t, slug, owner), slug);
    assert forall u :: u in t.users ==> t.users[u].name != slug;
    assert forall o :: o in t.orgs ==> t.orgs[o].slug != slug;
    hide NameTaken;
  }

  /** Releasing a username turns it into a tombstone. */
  lemma UserTombstoneKeeps(t: Tables, d: Tables, user: nat)
    requires NamesOk(t) && user in t.users
    requires d.users == t.users - {user} && d.orgs == t.orgs && d.created == t.created
    requires d.tombstones == t.tombstones + [t.users[user].name]
    ensures NamesOk(d)
  {
    var name := t.users[user].name;
    assert NameTaken(t, name);
    CreatedSnoc(t.tombstones, name);
    forall n ensures NameTaken(d, n) <==> NameTaken(t, n) && n != name {
      if u :| u in t.users && t.users[u].name == n {
        assert u != user ==> u in d.users && d.users[u].name == n;
      }
    }
    hide NameTaken;
    hide NoRepeats;
  }

  lemma SlugTombstoneKeeps(t: Tables, d: Tables, org: nat)
    requires NamesOk(t) && org in t.orgs
    requires d.orgs == t.orgs - {org} && d.users == t.users && d.created == t.created
    requires d.tombstones == t.tombstones + [t.orgs[org].slug]
    ensures NamesOk(d)
  {
    var slug := t.orgs[org].slug;
    assert NameTaken(t, slug);
    CreatedSnoc(t.tombstones, slug);
    forall n ensures NameTaken(d, n) <==> NameTaken(t, n) && n != slug {
      if o :| o in t.orgs && t.orgs[o].slug == n {
        assert o != org ==> o in d.orgs && d.orgs[o].slug == n;
      }
    }
    hide NameTaken;
    hide NoRepeats;
  }

  // -------------------------------------------------------- operation lemmas

  lemma ConsumedKeeps(t: Tables, code: string)
    requires Inv(t) && code in t.invites
    ensures Inv(Consumed(t, code))
  {
    hide NamesOk;
    hide Distinct;
    NamesSame(t, Consumed(t, code));
  }

  lemma FirstSeat(t: Tables, org: nat, user: nat, role: Role)
    requires SeatsOk(t) && OwnersOk(t) && org in t.orgs && user in t.users && Grantable(role)
    requires forall s :: s in t.seats ==> !(s.org == org && s.user == user)
    ensures SeatsOk(WithSeat(t, Seat(org, user, role))) && OwnersOk(WithSeat(t, Seat(org, user, role)))
  {
    var d := WithSeat(t, Seat(org, user, role));
    assert forall s :: s in t.seats ==> s in d.seats;
    assert OwnersOk(d) by { hide Distinct; }
  }

  lemma SecondSeat(t: Tables, org: nat, user: nat, role: Role)
    requires RoleOf(t.seats, org, user).Some?
    ensures !Distinct(WithSeat(t, Seat(org, user, role)).seats)
  {
    RoleOfFacts(t.seats, org, user);
    hide RoleOf;
    var d := WithSeat(t, Seat(org, user, role));
    var i :| 0 <= i < |t.seats| && SamePlace(t.seats[i], Seat(org, user, role));
    assert SamePlace(d.seats[i], d.seats[|t.seats|]);
  }

  /** A new seat keeps the books in order exactly when it is the member's first. */
  lemma SeatKeepsIff(t: Tables, org: nat, user: nat, role: Role)
    requires Inv(t) && org in t.orgs && user in t.users && Grantable(role)
    ensures Inv(WithSeat(t, Seat(org, user, role))) <==> RoleOf(t.seats, org, user).None?
  {
    hide NamesOk;
    hide OwnersOk;
    hide Distinct;
    var d := WithSeat(t, Seat(org, user, role));
    NamesSame(t, d);
    RoleOfFacts(t.seats, org, user);
    hide RoleOf;
    if RoleOf(t.seats, org, user).Some? {
      SecondSeat(t, org, user, role);
    } else {
      FirstSeat(t, org, user, role);
    }
  }

  lemma NewUserKeeps(t: Tables, name: string, email: string)
    requires Inv(t) && !NameTaken(t, name) && name !in t.tombstones
    ensures Inv(WithUser(t, name, email))
    ensures forall s :: s in t.seats ==> s.user != t.nextUser
  {
    hide NamesOk;
    hide Distinct;
    hide NameTaken;
    UserNameKeeps(t, name, email);
  }

  lemma RegisterKeeps(t: Tables, cfg: Config, username: string, email: string, wellFormed: bool, code: string, now: int)
    requires Inv(t)
    ensures Inv(Register(t, cfg, username, email, wellFormed, code, now).0)
  {
    hide NormalizeName;
    hide TrimSpace;
    hide ValidName;
    hide SeatsOk;
    hide OwnersOk;
    hide NamesOk;
    hide NameTaken;
    var name := NormalizeName(username);
    if !NameTaken(t, name) && name !in t.tombstones {
      NewUserKeeps(t, name, email);
      var joined := WithUser(t, name, email);
      if code in t.invites {
        ConsumedKeeps(joined, code);
        var i := t.invites[code];
        if i.org.Some? {
          RoleOfFacts(t.seats, i.org.value, t.nextUser);
          hide RoleOf;
          SeatKeepsIff(Consumed(joined, code), i.org.value, t.nextUser, SeatRole(i.role));
        }
      }
    }
  }

  lemma NewOrgSeats(t: Tables, slug: string, owner: nat)
    requires IdsOk(t) && SeatsOk(t) && OwnersOk(t) && owner in t.users
    ensures SeatsOk(WithOrg(t, slug, owner)) && OwnersOk(WithOrg(t, slug, owner))
  {
    var d := WithOrg(t, slug, owner);
    assert forall s :: s in t.seats ==> s.org != t.nextOrg;
    assert SeatsOk(d) by { hide OwnersOk; }
    hide SeatsOk;
    hide Distinct;
    assert d.seats[|t.seats|] == Seat(t.nextOrg, owner, Owner);
    assert forall s :: s in t.seats ==> s in d.seats;
  }

  lemma NewOrgKeeps(t: Tables, slug: string, owner: nat)
    requires Inv(t) && owner in t.users && !NameTaken(t, slug) && slug !in t.tombstones
    ensures Inv(WithOrg(t, slug, owner))
  {
    hide NamesOk;
    hide NameTaken;
    hide SeatsOk;
    hide OwnersOk;
    SlugKeeps(t, slug, owner);
    NewOrgSeats(t, slug, owner);
  }

  lemma CreateOrgKeeps(t: Tables, cfg: Config, creator: nat, text: string, fieldsOk: bool, code: string, now: int)
    requires Inv(t) && creator in t.users
    ensures Inv(CreateOrg(t, cfg, creator, text, fieldsOk, code, now).0)
  {
    hide Inv;
    hide TrimSpace;
    hide NormalizeName;
    hide ValidName;
    hide NameTaken;
    var slug := NormalizeName(text);
    if code in t.invites {
      ConsumedKeeps(t, code);
      var used := Consumed(t, code);
      if !NameTaken(used, slug) && slug !in used.tombstones {
        NewOrgKeeps(used, slug, creator);
      }
    }
    if !NameTaken(t, slug) && slug !in t.tombstones {
      NewOrgKeeps(t, slug, creator);
    }
  }

  lemma AddMemberKeeps(t: Tables, cfg: Config, org: nat, username: string, role: Role)
    requires Inv(t) && org in t.orgs
    ensures Inv(AddOrgMember(t, cfg, org, username, role).0)
  {
    hide Inv;
    hide NormalizeName;
    hide RoleOf;
    var u := FindUser(t.users, NormalizeName(username), t.nextUser);
    if u.Some? && Grantable(role) {
      SeatKeepsIff(t, org, u.value, role);
    }
  }

  /** The last-owner guard protects the recorded owner's seat. */
  lemma OwnerIsGuarded(t: Tables, org: nat, target: nat)
    requires Inv(t)
    requires var r := RoleOf(t.seats, org, target); r.Some? && !(r.value == Owner && CountOwners(t.seats, org) <= 1)
    ensures org in t.orgs && target != t.orgs[org].owner && RoleOf(t.seats, org, target).value != Owner
  {
    RoleOfFacts(t.seats, org, target);
    hide RoleOf;
    hide NamesOk;
    OwnerCount(t, org);
  }

  lemma ReseatedKeeps(t: Tables, d: Tables, org: nat, user: nat, role: Role)
    requires SeatsOk(t) && OwnersOk(t) && role != Owner && (org in t.orgs ==> user != t.orgs[org].owner)
    requires d == t.(seats := Reseated(t.seats, org, user, role))
    ensures SeatsOk(d) && OwnersOk(d)
  {
    ReseatedFacts(t.seats, org, user, role);
    RoleOfFacts(t.seats, org, user);
    hide RoleOf;
    hide Reseated;
    hide Distinct;
    assert SeatsOk(d);
    assert OwnersOk(d) by { hide SeatsOk; }
  }

  lemma SetRoleKeeps(t: Tables, org: nat, target: nat, role: Role)
    requires Inv(t)
    ensures Inv(SetOrgMemberRole(t, org, target, role).0)
  {
    hide RoleOf;
    hide CountOwners;
    hide NamesOk;
    hide SeatsOk;
    hide OwnersOk;
    hide Reseated;
    var (d, r) := SetOrgMemberRole(t, org, target, role);
    if r == Accepted {
      OwnerIsGuarded(t, org, target);
      ReseatedKeeps(t, d, org, target, role);
      NamesSame(t, d);
    }
  }

  /** Dropping seats is harmless while every owner keeps theirs. */
  lemma KeptKeeps(t: Tables, d: Tables, keep: Seat -> bool)
    requires SeatsOk(t) && OwnersOk(t) && d.seats == Kept(t.seats, keep)
    requires d.orgs.Keys <= t.orgs.Keys && d.users.Keys <= t.users.Keys
    requires forall o :: o in d.orgs ==> d.orgs[o] == t.orgs[o] && t.orgs[o].owner in d.users
    requires forall o :: o in d.orgs ==> keep(Seat(o, t.orgs[o].owner, Owner))
    requires forall s :: s in t.seats && keep(s) ==> s.org in d.orgs && s.user in d.users
    ensures SeatsOk(d) && OwnersOk(d)
  {
    KeptFacts(t.seats, keep);
    hide Kept;
    hide Distinct;
    assert SeatsOk(d);
    assert OwnersOk(d) by { hide SeatsOk; }
  }

  lemma RemoveKeeps(t: Tables, org: nat, target: nat)
    requires Inv(t)
    ensures Inv(RemoveOrgMember(t, org, target).0)
  {
    hide RoleOf;
    hide CountOwners;
    hide NamesOk;
    hide Distinct;
    hide Kept;
    var (d, r) := RemoveOrgMember(t, org, target);
    if r == Accepted {
      OwnerIsGuarded(t, org, target);
      NamesSame(t, d);
      KeptKeeps(t, d, (s: Seat) => !(s.org == org && s.user == target));
    }
  }

  lemma DeleteOrgKeeps(t: Tables, org: nat, confirm: string)
    requires Inv(t)
    ensures Inv(DeleteOrg(t, org, confirm).0)
  {
    hide NamesOk;
    hide Distinct;
    hide Kept;
    hide NormalizeName;
    var (d, r) := DeleteOrg(t, org, confirm);
    if r == Accepted {
      SlugTombstoneKeeps(t, d, org);
      KeptKeeps(t, d, (s: Seat) => s.org != org);
    }
  }

  lemma OwnsNothing(t: Tables, user: nat)
    requires CountOwned(t, user) == 0
    ensures forall o :: o in t.orgs ==> t.orgs[o].owner != user
  {
    var owned := set o | o in t.orgs && t.orgs[o].owner == user;
    assert forall o :: o in t.orgs && t.orgs[o].owner == user ==> o in owned;
    assert owned == {};
  }

  lemma DeleteAccountKeeps(t: Tables, user: nat, passwordOk: bool)
    requires Inv(t)
    ensures Inv(DeleteAccount(t, user, passwordOk).0)
  {
    hide NamesOk;
    hide Distinct;
    hide Kept;
    hide CountOwned;
    var (d, r) := DeleteAccount(t, user, passwordOk);
    if r == Accepted {
      OwnsNothing(t, user);
      UserTombstoneKeeps(t, d, user);
      KeptKeeps(t, d, (s: Seat) => s.user != user);
    }
  }

  // ---------------------------------------------------------------- transfer

  /** Who sits where after a transfer. */
  predicate AfterTransfer(t: Tables, org: nat, from: nat, to: nat, s: Seat)
  {
    if s.org == org && s.user == from then s.role == Admin && RoleOf(t.seats, org, from).Some?
    else if s.org == org && s.user == to then s.role == Owner
    else s in t.seats
  }

  lemma TransferredSeats(t: Tables, org: nat, from: nat, to: nat)
    requires RoleOf(t.seats, org, to).Some? && from != to
    ensures forall s :: s in Transferred(t, org, from, to).seats <==> AfterTransfer(t, org, from, to, s)
    ensures Distinct(t.seats) ==> Distinct(Transferred(t, org, from, to).seats)
  {
    var mid := Reseated(t.seats, org, to, Owner);
    RoleOfFacts(t.seats, org, to);
    RoleOfFacts(t.seats, org, from);
    RoleOfFacts(mid, org, from);
    ReseatedFacts(t.seats, org, to, Owner);
    ReseatedFacts(mid, org, from, Admin);
    hide RoleOf;
    hide Reseated;
    hide Distinct;
    assert Seat(org, to, Owner) in mid;
  }

  lemma TransferSeats(t: Tables, org: nat, from: nat, to: nat)
    requires SeatsOk(t) && OwnersOk(t) && org in t.orgs && RoleOf(t.seats, org, to).Some? && from != to
    ensures var d := Transferred(t, org, from, to);
            && SeatsOk(d)
            && (OwnersOk(d) <==> from == t.orgs[org].owner || to == t.orgs[org].owner)
  {
    var d, owner := Transferred(t, org, from, to), t.orgs[org].owner;
    TransferredSeats(t, org, from, to);
    RoleOfFacts(t.seats, org, to);
    RoleOfFacts(t.seats, org, from);
    hide RoleOf;
    hide Reseated;
    hide Distinct;
    assert SeatsOk(d);
    hide SeatsOk;
    if from != owner && to != owner {
      assert Seat(org, owner, Owner) in d.seats;
    } else {
      assert OwnersOk(d);
    }
  }

  /** Handing over ownership keeps one owner exactly when the actor is the
      recorded owner, or the target already is. */
  lemma TransferKeepsIff(t: Tables, org: nat, actor: nat, target: nat)
    requires Inv(t) && org in t.orgs && TransferOrgOwnership(t, org, actor, target).1 == Accepted
    ensures Inv(TransferOrgOwnership(t, org, actor, target).0) <==>
              actor == t.orgs[org].owner || target == t.orgs[org].owner
  {
    hide NamesOk;
    hide Distinct;
    hide RoleOf;
    hide SeatsOk;
    hide OwnersOk;
    var d := Transferred(t, org, actor, target);
    RoleOfUser(t, org, target);
    TransferSeats(t, org, actor, target);
    NamesSame(t, d);
  }

  lemma RoleOfUser(t: Tables, org: nat, user: nat)
    requires SeatsOk(t) && RoleOf(t.seats, org, user).Some?
    ensures user in t.users && org in t.orgs
  {
    RoleOfFacts(t.seats, org, user);
    hide RoleOf;
  }

  // ----------------------------------------------------------------- invites

  /** Redeeming an invite keeps everybody seated once exactly when the account
      was not a member yet: unlike a direct addition, it does not look. */
  lemma AcceptKeepsIff(t: Tables, cfg: Config, user: nat, code: string, now: int)
    requires Inv(t) && AcceptOrgInvite(t, cfg, user, code, now).1 == Accepted
    ensures Inv(AcceptOrgInvite(t, cfg, user, code, now).0) <==> RoleOf(t.seats, t.invites[code].org.value, user).None?
  {
    ConsumedKeeps(t, code);
    hide Inv;
    hide CountMembers;
    hide RoleOf;
    var i := t.invites[code];
    SeatKeepsIff(Consumed(t, code), i.org.value, user, SeatRole(i.role));
  }

  lemma InviteKeeps(t: Tables, cfg: Config, org: nat, email: string, wellFormed: bool, role: Role, code: string, expires: int)
    requires Inv(t)
    ensures Inv(InviteOrgMember(t, cfg, org, email, wellFormed, role, code, expires).0)
  {
    hide NamesOk;
    hide Distinct;
    hide CountMembers;
    NamesSame(t, InviteOrgMember(t, cfg, org, email, wellFormed, role, code, expires).0);
  }

  lemma UserInviteKeeps(t: Tables, email: string, wellFormed: bool, maxUses: int, code: string, expires: int)
    requires Inv(t)
    ensures Inv(CreateUserInvite(t, email, wellFormed, maxUses, code, expires).0)
  {
    hide NamesOk;
    hide Distinct;
    NamesSame(t, CreateUserInvite(t, email, wellFormed, maxUses, code, expires).0);
  }

  lemma RevokeKeeps(t: Tables, org: nat, code: string)
    requires Inv(t)
    ensures Inv(RevokeOrgInvite(t, org, code).0)
  {
    hide NamesOk;
    hide Distinct;
    NamesSame(t, RevokeOrgInvite(t, org, code).0);
  }

  // -------------------------------------------------------------------- runs

  datatype Op =
    | OpUserInvite(email: string, wellFormed: bool, maxUses: int, code: string, expires: int)
    | OpRevoke(org: nat, code: string)
    | OpRegister(name: string, email: string, wellFormed: bool, code: string, now: int)
    | OpCreateOrg(user: nat, name: string, wellFormed: bool, code: string, now: int)
    | OpAddMember(org: nat, name: string, role: Role)
    | OpSetRole(org: nat, user: nat, role: Role)
    | OpRemove(org: nat, user: nat)
    | OpTransfer(org: nat, user: nat, target: nat)
    | OpInvite(org: nat, email: string, wellFormed: bool, role: Role, code: string, expires: int)
    | OpAccept(user: nat, code: string, now: int)
    | OpDeleteOrg(org: nat, name: string)
    | OpDeleteAccount(user: nat, wellFormed: bool)

  function Apply(t: Tables, cfg: Config, op: Op): (Tables, Reply)
  {
    match op
    case OpUserInvite(email, ok, maxUses, code, expires) => CreateUserInvite(t, email, ok, maxUses, code, expires)
    case OpRevoke(org, code) => RevokeOrgInvite(t, org, code)
    case OpRegister(name, email, ok, code, now) => Register(t, cfg, name, email, ok, code, now)
    case OpCreateOrg(user, name, ok, code, now) => CreateOrg(t, cfg, user, name, ok, code, now)
    case OpAddMember(org, name, role) => AddOrgMember(t, cfg, org, name, role)
    case OpSetRole(org, user, role) => SetOrgMemberRole(t, org, user, role)
    case OpRemove(org, user) => RemoveOrgMember(t, org, user)
    case OpTransfer(org, user, target) => TransferOrgOwnership(t, org, user, target)
    case OpInvite(org, email, ok, role, code, expires) => InviteOrgMember(t, cfg, org, email, ok, role, code, expires)
    case OpAccept(user, code, now) => AcceptOrgInvite(t, cfg, user, code, now)
    case OpDeleteOrg(org, name) => DeleteOrg(t, org, name)
    case OpDeleteAccount(user, ok) => DeleteAccount(t, user, ok)
  }

  /** What the routes ensure before a call (a signed-in user, an organization that
      exists, the owner for a transfer), and the one thing they do not: an invite
      is redeemed by someone who is not a member yet. */
  predicate Guarded(t: Tables, op: Op)
  {
    match op
    case OpCreateOrg(user, _, _, _, _) => user in t.users
    case OpAddMember(org, _, _) => org in t.orgs
    case OpTransfer(org, user, _) => org in t.orgs && user == t.orgs[org].owner
    case OpAccept(user, code, _) =>
      code in t.invites && t.invites[code].org.Some? ==> RoleOf(t.seats, t.invites[code].org.value, user).None?
    case _ => true
  }

  function Run(cfg: Config, ops: seq<Op>): Tables
  {
    if ops == [] then EMPTY else Apply(Run(cfg, ops[..|ops| - 1]), cfg, ops[|ops| - 1]).0
  }

  predicate GuardedRun(cfg: Config, ops: seq<Op>)
  {
    forall k :: 0 <= k < |ops| ==> Guarded(Run(cfg, ops[..k]), ops[k])
  }

  lemma ApplyKeeps(t: Tables, cfg: Config, op: Op)
    requires Inv(t) && Guarded(t, op)
    ensures Inv(Apply(t, cfg, op).0)
  {
    hide Inv;
    hide RoleOf;
    match op
    case OpUserInvite(email, ok, maxUses, code, expires) => UserInviteKeeps(t, email, ok, maxUses, code, expires);
    case OpRevoke(org, code) => RevokeKeeps(t, org, code);
    case OpRegister(name, email, ok, code, now) => RegisterKeeps(t, cfg, name, email, ok, code, now);
    case OpCreateOrg(user, name, ok, code, now) => CreateOrgKeeps(t, cfg, user, name, ok, code, now);
    case OpAddMember(org, name, role) => AddMemberKeeps(t, cfg, org, name, role);
    case OpSetRole(org, user, role) => SetRoleKeeps(t, org, user, role);
    case OpRemove(org, user) => RemoveKeeps(t, org, user);
    case OpTransfer(org, user, target) =>
      if TransferOrgOwnership(t, org, user, target).1 == Accepted {
        TransferKeepsIff(t, org, user, target);
      }
    case OpInvite(org, email, ok, role, code, expires) => InviteKeeps(t, cfg, org, email, ok, role, code, expires);
    case OpAccept(user, code, now) =>
      if AcceptOrgInvite(t, cfg, user, code, now).1 == Accepted {
        AcceptKeepsIff(t, cfg, user, code, now);
      }
    case OpDeleteOrg(org, name) => DeleteOrgKeeps(t, org, name);
    case OpDeleteAccount(user, ok) => DeleteAccountKeeps(t, user, ok);
  }

  lemma {:induction false} RunInvariant(cfg: Config, ops: seq<Op>)
    requires GuardedRun(cfg, ops)
    ensures Inv(Run(cfg, ops))
  {
    if ops != [] {
      hide Apply;
      hide Guarded;
      var init := ops[..|ops| - 1];
      forall k | 0 <= k < |init| ensures Guarded(Run(cfg, init[..k]), init[k]) {
        assert init[..k] == ops[..k];
      }
      RunInvariant(cfg, init);
      hide Inv;
      ApplyKeeps(Run(cfg, init), cfg, ops[|ops| - 1]);
    }
  }

  /** After every such run each live organization has exactly one owner seat, it
      is the recorded owner's, and the owner's account still exists. */
  lemma ExactlyOneOwner(cfg: Config, ops: seq<Op>, org: nat)
    requires GuardedRun(cfg, ops) && org in Run(cfg, ops).orgs
    ensures var t := Run(cfg, ops); var owner := t.orgs[org].owner;
            && CountOwners(t.seats, org) == 1
            && owner in t.users
            && RoleOf(t.seats, org, owner) == Some(Owner)
  {
    RunInvariant(cfg, ops);
    hide GuardedRun;
    hide NamesOk;
    var t := Run(cfg, ops);
    hide Run;
    OwnerCount(t, org);
    RoleOfFacts(t.seats, org, t.orgs[org].owner);
    hide RoleOf;
    hide CountOwners;
    hide Distinct;
    var r := RoleOf(t.seats, org, t.orgs[org].owner);
    assert Seat(org, t.orgs[org].owner, Owner) in t.seats;
    assert Seat(org, t.orgs[org].owner, r.value).role == Owner;
  }

  // -------------------------------------------------------- names over runs

  ghost predicate NameInv(t: Tables)
  {
    IdsOk(t) && NamesOk(t)
  }

  lemma RegisterNames(t: Tables, cfg: Config, username: string, email: string, wellFormed: bool, code: string, now: int)
    requires NameInv(t)
    ensures NameInv(Register(t, cfg, username, email, wellFormed, code, now).0)
  {
    hide NormalizeName;
    hide TrimSpace;
    hide ValidName;
    hide NamesOk;
    hide NameTaken;
    var name := NormalizeName(username);
    var d := Register(t, cfg, username, email, wellFormed, code, now).0;
    if !NameTaken(t, name) && name !in t.tombstones {
      UserNameKeeps(t, name, email);
      if d.nextUser != t.nextUser {
        NamesSame(WithUser(t, name, email), d);
      }
    }
  }

  lemma CreateOrgNames(t: Tables, cfg: Config, creator: nat, text: string, fieldsOk: bool, code: string, now: int)
    requires NameInv(t)
    ensures NameInv(CreateOrg(t, cfg, creator, text, fieldsOk, code, now).0)
  {
    hide NormalizeName;
    hide TrimSpace;
    hide ValidName;
    hide NamesOk;
    hide NameTaken;
    hide CountOwned;
    var slug := NormalizeName(text);
    if code in t.invites {
      var used := Consumed(t, code);
      NamesSame(t, used);
      if !NameTaken(used, slug) && slug !in used.tombstones {
        SlugKeeps(used, slug, creator);
      }
    }
    if !NameTaken(t, slug) && slug !in t.tombstones {
      SlugKeeps(t, slug, creator);
    }
  }

  /** Every operation, whoever calls it, keeps the namespace in order. */
  lemma ApplyNames(t: Tables, cfg: Config, op: Op)
    requires NameInv(t)
    ensures NameInv(Apply(t, cfg, op).0)
  {
    hide NormalizeName;
    hide NamesOk;
    hide CountOwned;
    hide RoleOf;
    hide CountOwners;
    hide CountMembers;
    hide Register;
    hide CreateOrg;
    hide Kept;
    hide Reseated;
    var (d, r) := Apply(t, cfg, op);
    match op
    case OpRegister(name, email, ok, code, now) => RegisterNames(t, cfg, name, email, ok, code, now);
    case OpCreateOrg(user, name, ok, code, now) => CreateOrgNames(t, cfg, user, name, ok, code, now);
    case OpDeleteOrg(org, name) => if r == Accepted { SlugTombstoneKeeps(t, d, org); }
    case OpDeleteAccount(user, ok) => if r == Accepted { UserTombstoneKeeps(t, d, user); }
    case _ =>
      hide IdsOk;
      OtherOps(t, cfg, op);
      NamesSame(t, d);
  }

  /** The remaining operations leave users, slugs and histories alone. */
  lemma OtherOps(t: Tables, cfg: Config, op: Op)
    requires IdsOk(t) && !op.OpRegister? && !op.OpCreateOrg? && !op.OpDeleteOrg? && !op.OpDeleteAccount?
    ensures var d := Apply(t, cfg, op).0;
            && IdsOk(d) && d.users == t.users && d.tombstones == t.tombstones && d.created == t.created
            && d.orgs.Keys == t.orgs.Keys && forall o :: o in t.orgs ==> d.orgs[o].slug == t.orgs[o].slug
  {
    hide NormalizeName;
    hide RoleOf;
    hide CountOwners;
    hide CountMembers;
    hide Kept;
    hide Reseated;
  }

  /** The history of names and the tombstones only ever grow. */
  lemma ApplyOnlyAdds(t: Tables, cfg: Config, op: Op)
    ensures t.created <= Apply(t, cfg, op).0.created && t.tombstones <= Apply(t, cfg, op).0.tombstones
  {
    hide NormalizeName;
    hide TrimSpace;
    hide ValidName;
    hide NameTaken;
    hide CountOwned;
    hide CountMembers;
    hide CountOwners;
    hide RoleOf;
    hide Kept;
    hide Reseated;
  }

  lemma {:induction false} RunNames(cfg: Config, ops: seq<Op>)
    ensures NameInv(Run(cfg, ops))
  {
    if ops != [] {
      hide Apply;
      hide NameInv;
      RunNames(cfg, ops[..|ops| - 1]);
      ApplyNames(Run(cfg, ops[..|ops| - 1]), cfg, ops[|ops| - 1]);
    }
  }

  lemma {:induction false} RunOnlyAdds(cfg: Config, ops: seq<Op>, k: nat)
    requires k <= |ops|
    ensures Run(cfg, ops[..k]).created <= Run(cfg, ops).created
    ensures Run(cfg, ops[..k]).tombstones <= Run(cfg, ops).tombstones
    decreases |ops|
  {
    hide Apply;
    if k == |ops| {
      assert ops[..k] == ops;
    } else {
      var init := ops[..|ops| - 1];
      assert init[..k] == ops[..k];
      RunOnlyAdds(cfg, init, k);
      ApplyOnlyAdds(Run(cfg, init), cfg, ops[|ops| - 1]);
    }
  }

  /** Over every run whatsoever, no name is created twice: a name that was ever
      live stays live or becomes a tombstone, and tombstones are for good. */
  lemma NamesAreNeverReused(cfg: Config, ops: seq<Op>, k: nat, name: string)
    requires k <= |ops|
    ensures NoRepeats(Run(cfg, ops).created)
    ensures NameTaken(Run(cfg, ops[..k]), name) ==> NameTaken(Run(cfg, ops), name) || name in Run(cfg, ops).tombstones
    ensures name in Run(cfg, ops[..k]).tombstones ==> !NameTaken(Run(cfg, ops), name)
    ensures LiveNamesOk(Run(cfg, ops))
  {
    RunNames(cfg, ops);
    RunNames(cfg, ops[..k]);
    RunOnlyAdds(cfg, ops, k);
    hide Run;
    hide NameTaken;
    hide NoRepeats;
    hide LiveNamesOk;
  }

  // ------------------------------------------------------- invites over runs

  /** An invite either admits accounts, or seats members of one organization. */
  predicate InviteShapes(t: Tables)
  {
    forall c :: c in t.invites ==>
      && (t.invites[c].forOrg <==> t.invites[c].org.Some?)
      && 1 <= t.invites[c].maxUses && 0 <= t.invites[c].uses <= t.invites[c].maxUses
  }

  lemma ApplyShapes(t: Tables, cfg: Config, op: Op)
    requires InviteShapes(t)
    ensures InviteShapes(Apply(t, cfg, op).0)
    ensures cfg.creation == ByInvite && t.orgs == map[] ==> Apply(t, cfg, op).0.orgs == map[]
  {
    hide NormalizeName;
    hide TrimSpace;
    hide CheckName;
    hide CountOwned;
    hide RoleOf;
    hide CountOwners;
    hide CountMembers;
    hide Kept;
    hide Reseated;
  }

  /** No invite is ever used more often than it allows, and none admits to
      creating an organization: with creation by invite only, there never is
      one. */
  lemma {:induction false} InvitesOverRuns(cfg: Config, ops: seq<Op>)
    ensures InviteShapes(Run(cfg, ops))
    ensures cfg.creation == ByInvite ==> Run(cfg, ops).orgs == map[]
  {
    if ops != [] {
      hide Apply;
      InvitesOverRuns(cfg, ops[..|ops| - 1]);
      ApplyShapes(Run(cfg, ops[..|ops| - 1]), cfg, ops[|ops| - 1]);
    }
  }

  /** A fresh single-use invite admits one account and no second one. */
  lemma InviteAdmitsOnce(t: Tables, cfg: Config, code: string, expires: int, name: string, email: string, now: int, other: string, mail: string, later: int)
    requires cfg.registration == ByInvite && TrimSpace(code) != "" && now < expires
    requires CheckName(t, cfg, NormalizeName(name)) == Accepted && forall u :: u in t.users ==> t.users[u].email != email
    ensures var invited := CreateUserInvite(t, "", true, 1, code, expires).0;
            var (joined, r) := Register(invited, cfg, name, email, true, code, now);
            && r == Accepted && joined.users == t.users[t.nextUser := User(NormalizeName(name), email)]
            && Register(joined, cfg, other, mail, true, code, later).0 == joined
            && Register(joined, cfg, other, mail, true, code, later).1 != Accepted
  {
    hide NormalizeName;
    hide TrimSpace;
    var invited := CreateUserInvite(t, "", true, 1, code, expires).0;
    SameCheck(t, invited, cfg, NormalizeName(name));
    assert ValidName(NormalizeName(name));
    hide CheckName;
    hide ValidName;
  }

  lemma SameCheck(t: Tables, d: Tables, cfg: Config, name: string)
    requires d.users == t.users && d.orgs == t.orgs && d.tombstones == t.tombstones
    ensures CheckName(d, cfg, name) == CheckName(t, cfg, name)
  {
    hide ValidName;
  }

  // --------------------------------------------------------- duplicate seats

  function CountSeats(seats: seq<Seat>, org: nat, user: nat): nat
  {
    if seats == [] then 0
    else CountSeats(seats[..|seats| - 1], org, user) + if seats[|seats| - 1].org == org && seats[|seats| - 1].user == user then 1 else 0
  }

  /** The owner seats of an organization are one, and the recorded owner's. */
  predicate OneOwner(t: Tables, org: nat)
  {
    && org in t.orgs && CountOwners(t.seats, org) == 1
    && forall s :: s in t.seats && s.org == org && s.role == Owner ==> s.user == t.orgs[org].owner
  }

  lemma {:induction false} CountSeatsIff(seats: seq<Seat>, org: nat, user: nat)
    ensures CountSeats(seats, org, user) == 0 <==> RoleOf(seats, org, user).None?
    ensures Distinct(seats) ==> CountSeats(seats, org, user) <= 1
  {
    RoleOfFacts(seats, org, user);
    hide RoleOf;
    if seats != [] {
      var init, last := seats[..|seats| - 1], seats[|seats| - 1];
      assert seats == init + [last];
      RoleOfFacts(init, org, user);
      CountSeatsIff(init, org, user);
      assert Distinct(seats) ==> Distinct(init);
      assert Distinct(seats) ==> forall s :: s in init ==> !SamePlace(s, last);
    }
  }

  /** Updating all of a user's rows to owner, where no one else is owner. */
  lemma {:induction false} OwnersAfterTransfer(seats: seq<Seat>, org: nat, from: nat, to: nat)
    requires from != to && forall s :: s in seats && s.org == org && s.role == Owner ==> s.user == from
    ensures CountOwners(Reseated(Reseated(seats, org, to, Owner), org, from, Admin), org) == CountSeats(seats, org, to)
  {
    if seats != [] {
      var init, last := seats[..|seats| - 1], seats[|seats| - 1];
      assert forall s :: s in init ==> s in seats;
      assert last in seats;
      OwnersAfterTransfer(init, org, from, to);
      var out := Reseated(Reseated(seats, org, to, Owner), org, from, Admin);
      assert out[..|out| - 1] == Reseated(Reseated(init, org, to, Owner), org, from, Admin);
    }
  }

  /** Updating all of an owner's rows to another role leaves no owner. */
  lemma {:induction false} OwnersAfterDemotion(seats: seq<Seat>, org: nat, user: nat, role: Role)
    requires role != Owner && forall s :: s in seats && s.org == org && s.role == Owner ==> s.user == user
    ensures CountOwners(Reseated(seats, org, user, role), org) == 0
  {
    if seats != [] {
      var init, last := seats[..|seats| - 1], seats[|seats| - 1];
      assert forall s :: s in init ==> s in seats;
      assert last in seats;
      OwnersAfterDemotion(init, org, user, role);
      var out := Reseated(seats, org, user, role);
      assert out[..|out| - 1] == Reseated(init, org, user, role);
    }
  }

  lemma TransferredOwners(t: Tables, org: nat, target: nat)
    requires OneOwner(t, org) && target != t.orgs[org].owner && RoleOf(t.seats, org, target).Some?
    ensures var d := Transferred(t, org, t.orgs[org].owner, target);
            && CountOwners(d.seats, org) == CountSeats(t.seats, org, target)
            && d.orgs[org].owner == target
            && (forall s :: s in d.seats && s.org == org && s.role == Owner ==> s.user == target)
            && RoleOf(d.seats, org, target) == Some(Owner)
  {
    var owner := t.orgs[org].owner;
    var d := Transferred(t, org, owner, target);
    OwnersAfterTransfer(t.seats, org, owner, target);
    TransferredSeats(t, org, owner, target);
    RoleOfFacts(d.seats, org, target);
    hide RoleOf;
    hide CountOwners;
    hide CountSeats;
    hide Reseated;
    assert AfterTransfer(t, org, owner, target, Seat(org, target, Owner));
    assert Seat(org, target, Owner) in d.seats;
    var r := RoleOf(d.seats, org, target);
    assert AfterTransfer(t, org, owner, target, Seat(org, target, r.value));
  }

  /** Handing ownership to a member keeps one owner if and only if that member is
      seated once. */
  lemma TransferKeepsOneOwnerIff(t: Tables, org: nat, target: nat)
    requires OneOwner(t, org) && target != t.orgs[org].owner && RoleOf(t.seats, org, target).Some?
    ensures OneOwner(Transferred(t, org, t.orgs[org].owner, target), org) <==> CountSeats(t.seats, org, target) == 1
  {
    TransferredOwners(t, org, target);
    hide RoleOf;
    hide CountOwners;
    hide CountSeats;
    hide Reseated;
  }

  /** After a transfer the last-owner guard lets the new owner be demoted if and
      only if they are seated more than once, and then nobody owns the
      organization. */
  lemma GuardFailsIff(t: Tables, org: nat, target: nat, role: Role)
    requires OneOwner(t, org) && target != t.orgs[org].owner && RoleOf(t.seats, org, target).Some? && Grantable(role)
    ensures var d := Transferred(t, org, t.orgs[org].owner, target);
            var (e, r) := SetOrgMemberRole(d, org, target, role);
            && (r == Accepted <==> CountSeats(t.seats, org, target) > 1)
            && (r == Accepted ==> CountOwners(e.seats, org) == 0)
  {
    TransferredOwners(t, org, target);
    CountSeatsIff(t.seats, org, target);
    hide RoleOf;
    hide CountOwners;
    hide CountSeats;
    hide Reseated;
    var d := Transferred(t, org, t.orgs[org].owner, target);
    OwnersAfterDemotion(d.seats, org, target, role);
  }

  lemma InvHasOneOwner(t: Tables, org: nat)
    requires Inv(t) && org in t.orgs
    ensures OneOwner(t, org)
  {
    hide NamesOk;
    OwnerCount(t, org);
    hide CountOwners;
  }

  lemma SeatCount(t: Tables, org: nat, user: nat, role: Role)
    requires role != Owner
    ensures var d := WithSeat(t, Seat(org, user, role));
            && CountSeats(d.seats, org, user) == CountSeats(t.seats, org, user) + 1
            && CountOwners(d.seats, org) == CountOwners(t.seats, org)
  {
    var d := WithSeat(t, Seat(org, user, role));
    assert d.seats[..|d.seats| - 1] == t.seats;
  }

  /** Redeeming an invite and then receiving the ownership leaves one owner if and
      only if the account was not a member before it redeemed. */
  lemma AcceptThenTransferIff(t: Tables, cfg: Config, user: nat, code: string, now: int)
    requires Inv(t) && AcceptOrgInvite(t, cfg, user, code, now).1 == Accepted
    requires user != t.orgs[t.invites[code].org.value].owner
    ensures var org, d := t.invites[code].org.value, AcceptOrgInvite(t, cfg, user, code, now).0;
            && org in d.orgs
            && (OneOwner(TransferOrgOwnership(d, org, d.orgs[org].owner, user).0, org) <==> RoleOf(t.seats, org, user).None?)
  {
    hide Inv;
    hide RoleOf;
    hide CountOwners;
    hide CountSeats;
    hide CountMembers;
    hide Distinct;
    hide OneOwner;
    hide Transferred;
    var org, role := t.invites[code].org.value, SeatRole(t.invites[code].role);
    InvHasOneOwner(t, org);
    InvDistinct(t);
    var d := AcceptOrgInvite(t, cfg, user, code, now).0;
    SeatKeepsOneOwner(t, Consumed(t, code), org, user, role);
    CountSeatsIff(t.seats, org, user);
    CountSeatsIff(d.seats, org, user);
    TransferKeepsOneOwnerIff(d, org, user);
  }

  lemma InvDistinct(t: Tables)
    requires Inv(t)
    ensures Distinct(t.seats)
  {
  }

  lemma SeatKeepsOneOwner(t: Tables, d: Tables, org: nat, user: nat, role: Role)
    requires OneOwner(t, org) && role != Owner && d.seats == t.seats && d.orgs == t.orgs
    ensures var e := WithSeat(d, Seat(org, user, role));
            OneOwner(e, org) && CountSeats(e.seats, org, user) == CountSeats(t.seats, org, user) + 1
  {
    SeatCount(d, org, user, role);
    hide CountOwners;
    hide CountSeats;
  }

  // ----------------------------------------------------------------- witness

  lemma Plain(s: string)
    requires s != [] && forall i :: 0 <= i < |s| ==> 'a' <= s[i] <= 'z'
    ensures NormalizeName(s) == s && (2 <= |s| <= 39 ==> ValidName(s))
  {
    assert TrimSpace(s) == s;
    assert ToLower(s) == s;
  }

  const OPEN := Config(n => false, Open, Open, 0, 0)

  const ANN := Tables(map[0 := User("ann", "a")], 1, map[], 0, [], [], map[], ["ann"])

  const BOTH := ANN.(users := ANN.users[1 := User("bob", "b")], nextUser := 2, created := ["ann", "bob"])

  const OWNED := BOTH.(orgs := map[0 := Org("acme", 0)], nextOrg := 1, seats := [Seat(0, 0, Owner)], created := ["ann", "bob", "acme"])

  /** Ann owns the organization; bob is a member and has an invite to it. */
  const INVITED := OWNED.(
    seats := [Seat(0, 0, Owner), Seat(0, 1, Member)],
    invites := map["code" := Invite(true, Some(0), Member, "", 1, 0, 100, false)])

  function InvitedRun(): seq<Op>
  {
    [OpRegister("ann", "a", true, "", 0)] + [OpRegister("bob", "b", true, "", 0)] + [OpCreateOrg(0, "acme", true, "", 0)] +
    [OpAddMember(0, "bob", Member)] + [OpInvite(0, "", true, Member, "code", 100)]
  }

  lemma RunSnoc(cfg: Config, ops: seq<Op>, op: Op)
    ensures Run(cfg, ops + [op]) == Apply(Run(cfg, ops), cfg, op).0
  {
    assert (ops + [op])[..|ops|] == ops;
  }

  /** With open registration, a free name is enough. */
  lemma OpenRegister(t: Tables, name: string, email: string)
    requires NormalizeName(name) == name && CheckName(t, OPEN, name) == Accepted
    requires forall u :: u in t.users ==> t.users[u].email != email
    ensures Register(t, OPEN, name, email, true, "", 0).0 == WithUser(t, name, email)
  {
    hide NormalizeName;
    hide NameTaken;
  }

  lemma RegisterAnn()
    ensures Register(EMPTY, OPEN, "ann", "a", true, "", 0).0 == ANN
  {
    Plain("ann");
    hide ValidName;
    hide NormalizeName;
    assert !NameTaken(EMPTY, "ann");
    OpenRegister(EMPTY, "ann", "a");
    hide Register;
  }

  lemma RegisterBob()
    ensures Register(ANN, OPEN, "bob", "b", true, "", 0).0 == BOTH
  {
    Plain("bob");
    hide ValidName;
    hide NormalizeName;
    assert "ann" != "bob" && "a" != "b";
    assert !NameTaken(ANN, "bob");
    OpenRegister(ANN, "bob", "b");
    hide Register;
  }

  lemma CreateAcme()
    ensures CreateOrg(BOTH, OPEN, 0, "acme", true, "", 0).0 == OWNED
  {
    Plain("acme");
    hide ValidName;
    hide NormalizeName;
    hide CountOwned;
    assert |"acme"| == 4 && |"ann"| == 3 && |"bob"| == 3;
    assert BOTH.users[0].name == "ann" && BOTH.users[1].name == "bob";
    assert !NameTaken(BOTH, "acme");
    hide NameTaken;
    assert CheckName(BOTH, OPEN, "acme") == Accepted;
  }

  lemma AddBob()
    ensures AddOrgMember(OWNED, OPEN, 0, "bob", Member).0 == WithSeat(OWNED, Seat(0, 1, Member))
  {
    Plain("bob");
    hide NormalizeName;
    hide CountMembers;
    assert FindUser(OWNED.users, "bob", 2) == Some(1);
    hide FindUser;
    assert RoleOf([Seat(0, 0, Owner)], 0, 1) == None;
  }

  lemma InviteBob()
    ensures InviteOrgMember(WithSeat(OWNED, Seat(0, 1, Member)), OPEN, 0, "", true, Member, "code", 100).0 == INVITED
  {
    hide CountMembers;
    assert WithSeat(OWNED, Seat(0, 1, Member)).seats == INVITED.seats;
  }

  lemma Then(ops: seq<Op>, t: Tables, op: Op, d: Tables)
    requires Run(OPEN, ops) == t && Apply(t, OPEN, op).0 == d
    ensures Run(OPEN, ops + [op]) == d
  {
    hide Apply;
    RunSnoc(OPEN, ops, op);
  }

  lemma UsersRun(ann: Op, bob: Op)
    requires ann == OpRegister("ann", "a", true, "", 0) && bob == OpRegister("bob", "b", true, "", 0)
    ensures Run(OPEN, [ann] + [bob]) == BOTH
  {
    assert Run(OPEN, []) == EMPTY;
    assert [] + [ann] == [ann];
    RegisterAnn();
    RegisterBob();
    hide Run;
    hide Register;
    Then([], EMPTY, ann, ANN);
    Then([ann], ANN, bob, BOTH);
  }

  lemma InvitedFrom(ops: seq<Op>)
    requires Run(OPEN, ops) == BOTH
    ensures Run(OPEN, ops + [OpCreateOrg(0, "acme", true, "", 0)] + [OpAddMember(0, "bob", Member)] + [OpInvite(0, "", true, Member, "code", 100)]) == INVITED
  {
    CreateAcme();
    AddBob();
    InviteBob();
    hide Run;
    hide CreateOrg;
    hide AddOrgMember;
    hide InviteOrgMember;
    hide WithSeat;
    var org, add, seated := OpCreateOrg(0, "acme", true, "", 0), OpAddMember(0, "bob", Member), WithSeat(OWNED, Seat(0, 1, Member));
    Then(ops, BOTH, org, OWNED);
    Then(ops + [org], OWNED, add, seated);
    Then(ops + [org] + [add], seated, OpInvite(0, "", true, Member, "code", 100), INVITED);
  }

  lemma InvitedRunResult()
    ensures Run(OPEN, InvitedRun()) == INVITED
  {
    hide Run;
    var ann, bob := OpRegister("ann", "a", true, "", 0), OpRegister("bob", "b", true, "", 0);
    UsersRun(ann, bob);
    InvitedFrom([ann] + [bob]);
  }

  lemma AcceptBob()
    ensures var t := AcceptOrgInvite(INVITED, OPEN, 1, "code", 1).0;
            t.seats == [Seat(0, 0, Owner), Seat(0, 1, Member), Seat(0, 1, Member)] && t.orgs == map[0 := Org("acme", 0)]
  {
    hide CountMembers;
  }

  /** A member who redeems an invite and is then made owner can be demoted, and the
      organization has no owner: the run is reachable, and only the redemption is
      not guarded. */
  lemma OwnerlessOrganization()
    ensures var ops := InvitedRun() + [OpAccept(1, "code", 1)] + [OpTransfer(0, 0, 1)];
            var t, d := Run(OPEN, ops), Run(OPEN, ops + [OpSetRole(0, 1, Member)]);
            && CountOwners(t.seats, 0) == 2
            && 0 in d.orgs && CountOwners(d.seats, 0) == 0
  {
    hide Run;
    hide InvitedRun;
    hide Reseated;
    InvitedRunResult();
    AcceptBob();
    hide AcceptOrgInvite;
    var ops, accept, transfer := InvitedRun(), OpAccept(1, "code", 1), OpTransfer(0, 0, 1);
    RunSnoc(OPEN, ops, accept);
    RunSnoc(OPEN, ops + [accept], transfer);
    RunSnoc(OPEN, ops + [accept] + [transfer], OpSetRole(0, 1, Member));
    var seats := [Seat(0, 0, Owner), Seat(0, 1, Member), Seat(0, 1, Member)];
    var t := Run(OPEN, ops + [accept]);
    assert t.seats == seats && t.orgs == map[0 := Org("acme", 0)];
    ThreeSeats(seats);
    hide CountOwners;
    hide CountSeats;
    hide RoleOf;
    assert OneOwner(t, 0);
    TransferredOwners(t, 0, 1);
    GuardFailsIff(t, 0, 1, Member);
  }

  lemma ThreeSeats(seats: seq<Seat>)
    requires seats == [Seat(0, 0, Owner), Seat(0, 1, Member), Seat(0, 1, Member)]
    ensures CountOwners(seats, 0) == 1 && CountSeats(seats, 0, 1) == 2 && RoleOf(seats, 0, 1) == Some(Member)
  {
    var a, b := seats[..1], seats[..2];
    assert b[..1] == a && a[..0] == [] && seats[1..][0] == Seat(0, 1, Member);
    assert CountOwners(a, 0) == 1 && CountSeats(a, 0, 1) == 0;
    assert CountOwners(b, 0) == 1 && CountSeats(b, 0, 1) == 1;
  }
}
