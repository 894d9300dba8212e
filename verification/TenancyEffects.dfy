/** What the tenancy operations do, on the rows themselves: when each is accepted,
    what it changes, and what it leaves alone. */
module TenancyEffects {
  import opened Text
  import opened Tenancy

  // -------------------------------------------------------------------- rows

  predicate At(s: Seat, org: nat, user: nat)
  {
    s.org == org && s.user == user
  }

  /** The first row of the user in the organization. */
  predicate FirstRow(seats: seq<Seat>, org: nat, user: nat, k: nat)
  {
    k < |seats| && At(seats[k], org, user) && forall j :: 0 <= j < k ==> !At(seats[j], org, user)
  }

  predicate Seated(seats: seq<Seat>, org: nat, user: nat)
  {
    exists k :: 0 <= k < |seats| && At(seats[k], org, user)
  }

  function OwnerRows(seats: seq<Seat>, org: nat): set<nat>
  {
    set k | 0 <= k < |seats| && seats[k].org == org && seats[k].role == Owner
  }

  function MemberRows(seats: seq<Seat>, org: nat): set<nat>
  {
    set k | 0 <= k < |seats| && seats[k].org == org
  }

  lemma RowsSnoc(init: seq<Seat>, last: Seat, org: nat)
    ensures OwnerRows(init + [last], org) ==
              OwnerRows(init, org) + if last.org == org && last.role == Owner then {|init|} else {}
    ensures MemberRows(init + [last], org) == MemberRows(init, org) + if last.org == org then {|init|} else {}
  {
  }

  lemma {:induction false} CountsRows(seats: seq<Seat>, org: nat)
    ensures CountOwners(seats, org) == |OwnerRows(seats, org)|
    ensures CountMembers(seats, org) == |MemberRows(seats, org)|
  {
    if seats != [] {
      var k := |seats| - 1;
      CountsRows(seats[..k], org);
      RowsSnoc(seats[..k], seats[k], org);
      assert seats == seats[..k] + [seats[k]];
      assert k !in OwnerRows(seats[..k], org) && k !in MemberRows(seats[..k], org);
      hide OwnerRows;
      hide MemberRows;
    }
  }

  lemma {:induction false} RoleIsFirstRow(seats: seq<Seat>, org: nat, user: nat, k: nat)
    requires FirstRow(seats, org, user, k)
    ensures RoleOf(seats, org, user) == Some(seats[k].role)
  {
    if k > 0 {
      assert !At(seats[0], org, user);
      RoleIsFirstRow(seats[1..], org, user, k - 1);
    }
  }

  lemma {:induction false} FindFirstRow(seats: seq<Seat>, org: nat, user: nat) returns (k: nat)
    ensures RoleOf(seats, org, user).None? <==> !Seated(seats, org, user)
    ensures Seated(seats, org, user) ==> FirstRow(seats, org, user, k) && RoleOf(seats, org, user) == Some(seats[k].role)
  {
    k := 0;
    if seats != [] && !At(seats[0], org, user) {
      k := FindFirstRow(seats[1..], org, user);
      k := k + 1;
      if Seated(seats, org, user) {
        var j :| 0 <= j < |seats| && At(seats[j], org, user);
        assert seats[1..][j - 1] == seats[j];
      }
      if Seated(seats[1..], org, user) {
        assert At(seats[k], org, user);
        assert forall i :: 0 < i < k ==> seats[i] == seats[1..][i - 1];
      }
    } else if seats != [] {
      assert At(seats[0], org, user);
    }
  }

  /** `rest` are the rows of `all` at the increasing places `f`. */
  predicate Selects(all: seq<Seat>, rest: seq<Seat>, f: seq<nat>)
  {
    && |f| == |rest|
    && (forall i :: 0 <= i < |f| ==> f[i] < |all| && rest[i] == all[f[i]])
    && (forall i, j :: 0 <= i < j < |f| ==> f[i] < f[j])
  }

  lemma SelectsSnoc(init: seq<Seat>, last: Seat, rest: seq<Seat>, f: seq<nat>)
    requires Selects(init, rest, f)
    ensures Selects(init + [last], rest, f) && Selects(init + [last], rest + [last], f + [|init|])
    ensures |init| !in f
  {
  }

  lemma PlacesSnoc(init: seq<Seat>, last: Seat, keep: Seat -> bool, g: seq<nat>)
    requires |init| !in g && forall k :: 0 <= k < |init| ==> (k in g <==> keep(init[k]))
    ensures var f := if keep(last) then g + [|init|] else g;
            forall k :: 0 <= k < |init + [last]| ==> (k in f <==> keep((init + [last])[k]))
  {
    assert forall j :: j in g + [|init|] <==> j in g || j == |init|;
  }

  /** Deleting rows keeps the others, in order: `f` says which they were. */
  lemma {:induction false} KeptSelects(seats: seq<Seat>, keep: Seat -> bool) returns (f: seq<nat>)
    ensures Selects(seats, Kept(seats, keep), f)
    ensures forall k :: 0 <= k < |seats| ==> (k in f <==> keep(seats[k]))
  {
    if seats == [] {
      f := [];
    } else {
      var k := |seats| - 1;
      var init, last := seats[..k], seats[k];
      var g := KeptSelects(init, keep);
      assert seats == init + [last];
      SelectsSnoc(init, last, Kept(init, keep), g);
      hide Selects;
      PlacesSnoc(init, last, keep, g);
      f := if keep(last) then g + [k] else g;
    }
  }

  // ----------------------------------------------------------------- members

  /** Someone else may still own the organization, or the member does not. */
  predicate NotLastOwner(seats: seq<Seat>, org: nat, user: nat)
  {
    exists k :: 0 <= k < |seats| && FirstRow(seats, org, user, k) && (seats[k].role != Owner || |OwnerRows(seats, org)| >= 2)
  }

  /** What the guard of the code looks at. */
  lemma NotLastOwnerIff(seats: seq<Seat>, org: nat, user: nat)
    ensures NotLastOwner(seats, org, user) <==>
              RoleOf(seats, org, user).Some? && !(RoleOf(seats, org, user).value == Owner && CountOwners(seats, org) <= 1)
    ensures RoleOf(seats, org, user).Some? <==> Seated(seats, org, user)
  {
    var k := FindFirstRow(seats, org, user);
    CountsRows(seats, org);
    hide RoleOf;
    hide CountOwners;
    hide OwnerRows;
    assert forall j :: 0 <= j < |seats| && FirstRow(seats, org, user, j) ==> At(seats[j], org, user) && Seated(seats, org, user);
    assert forall j :: 0 <= j < |seats| && FirstRow(seats, org, user, j) ==> j == k;
  }

  /** A member can be removed exactly if seated and not the last owner; then all
      rows of theirs in the organization are gone, and nothing else is. */
  lemma RemoveExactly(t: Tables, org: nat, target: nat) returns (f: seq<nat>)
    ensures var (d, r) := RemoveOrgMember(t, org, target);
            && (r == Accepted <==> NotLastOwner(t.seats, org, target))
            && (r == Refused(NotFound) <==> !Seated(t.seats, org, target))
            && (r != Accepted ==> d == t && r in {Refused(NotFound), Refused(LastOwner)})
            && (r == Accepted ==> d == t.(seats := d.seats) && Selects(t.seats, d.seats, f))
    ensures forall k :: 0 <= k < |t.seats| ==> (k in f <==> t.seats[k].org != org || t.seats[k].user != target)
  {
    NotLastOwnerIff(t.seats, org, target);
    f := KeptSelects(t.seats, (s: Seat) => !(s.org == org && s.user == target));
    hide NotLastOwner;
    hide Seated;
    hide Selects;
    hide RoleOf;
    hide Kept;
    hide CountOwners;
  }

  /** A role change is accepted for a seated member other than the last owner, to
      admin or member; it rewrites the role in every row of theirs there. */
  lemma SetRoleExactly(t: Tables, org: nat, target: nat, role: Role)
    ensures var (d, r) := SetOrgMemberRole(t, org, target, role);
            && (r == Accepted <==> (role == Admin || role == Member) && NotLastOwner(t.seats, org, target))
            && (r == Refused(Validation) <==> role != Admin && role != Member)
            && (r == Refused(NotFound) <==> (role == Admin || role == Member) && !Seated(t.seats, org, target))
            && (r != Accepted ==> d == t && r in {Refused(Validation), Refused(NotFound), Refused(LastOwner)})
            && (r == Accepted ==>
                  && d == t.(seats := d.seats) && |d.seats| == |t.seats|
                  && forall i :: 0 <= i < |t.seats| ==>
                       d.seats[i] == if t.seats[i].org == org && t.seats[i].user == target
                                     then Seat(org, target, role) else t.seats[i])
  {
    NotLastOwnerIff(t.seats, org, target);
    hide NotLastOwner;
    hide Seated;
    hide RoleOf;
    hide CountOwners;
  }

  /** A transfer needs another, seated target; then the target's rows say owner,
      the actor's say admin, and the organization records the target. */
  lemma TransferExactly(t: Tables, org: nat, actor: nat, target: nat)
    ensures var (d, r) := TransferOrgOwnership(t, org, actor, target);
            && (r == Accepted <==> actor != target && Seated(t.seats, org, target))
            && (r != Accepted ==> d == t && r == Refused(if actor == target then Validation else NotFound))
            && (r == Accepted ==>
                  && d == t.(seats := d.seats, orgs := d.orgs)
                  && |d.seats| == |t.seats|
                  && (forall i :: 0 <= i < |t.seats| ==>
                        d.seats[i] == if t.seats[i].org == org && t.seats[i].user == target then Seat(org, target, Owner)
                                      else if t.seats[i].org == org && t.seats[i].user == actor then Seat(org, actor, Admin)
                                      else t.seats[i])
                  && d.orgs.Keys == t.orgs.Keys
                  && (forall o :: o in t.orgs ==> d.orgs[o] == if o == org then Org(t.orgs[o].slug, target) else t.orgs[o]))
  {
    var k := FindFirstRow(t.seats, org, target);
    hide RoleOf;
  }

  predicate HasRoom(t: Tables, cfg: Config, org: nat)
  {
    cfg.maxMembers <= 0 || |MemberRows(t.seats, org)| < cfg.maxMembers
  }

  lemma {:induction false} FindUserFinds(users: map<nat, User>, name: string, n: nat)
    ensures FindUser(users, name, n).None? <==> forall u :: u in users && u < n ==> users[u].name != name
    ensures FindUser(users, name, n).Some? ==> FindUser(users, name, n).value < n
  {
    if n > 0 {
      FindUserFinds(users, name, n - 1);
    }
  }

  /** While there is room, a user of that name who is not seated yet can be added,
      as admin or member: one row, at the end. */
  lemma AddExactly(t: Tables, cfg: Config, org: nat, username: string, role: Role)
    requires IdsOk(t) && LiveNamesOk(t)
    ensures var (d, r) := AddOrgMember(t, cfg, org, username, role);
            && (r == Accepted <==>
                  && (role == Admin || role == Member) && HasRoom(t, cfg, org)
                  && exists u :: u in t.users && t.users[u].name == NormalizeName(username) && !Seated(t.seats, org, u))
            && (r != Accepted ==> d == t && r in {Refused(Validation), Refused(Quota), Refused(NotFound), Refused(Conflict)})
            && (r == Refused(Validation) <==> role != Admin && role != Member)
            && (r == Refused(Quota) <==> (role == Admin || role == Member) && !HasRoom(t, cfg, org))
            && (r == Refused(NotFound) <==>
                  && (role == Admin || role == Member) && HasRoom(t, cfg, org)
                  && forall u :: u in t.users ==> t.users[u].name != NormalizeName(username))
            && (r == Accepted ==> forall u :: u in t.users && t.users[u].name == NormalizeName(username) ==>
                  d == t.(seats := t.seats + [Seat(org, u, role)]))
  {
    hide NormalizeName;
    var name := NormalizeName(username);
    FindUserFinds(t.users, name, t.nextUser);
    CountsRows(t.seats, org);
    hide CountMembers;
    var found := FindUser(t.users, name, t.nextUser);
    hide FindUser;
    if found.Some? {
      var k := FindFirstRow(t.seats, org, found.value);
      hide RoleOf;
    }
  }

  // ------------------------------------------------------------------- names

  /** Letters come down to lower case; everything else stays. */
  lemma LowerCase(c: char)
    ensures Lower(c) as int == if 65 <= c as int <= 90 then c as int + 32 else c as int
  {
  }

  /** The rules for names, in character codes: lower-case letters, digits and
      single hyphens inside, 2 to 39 of them. */
  predicate AllowedName(name: string)
  {
    && 2 <= |name| <= 39
    && (forall c :: c in name ==> 97 <= c as int <= 122 || 48 <= c as int <= 57 || c as int == 45)
    && name[0] as int != 45 && name[|name| - 1] as int != 45
    && (forall i :: 0 < i < |name| && name[i] as int == 45 ==> name[i - 1] as int != 45)
  }

  /** A name that nobody holds or ever held, and that is allowed. */
  predicate FreeName(t: Tables, cfg: Config, name: string)
  {
    && AllowedName(name)
    && !cfg.blocked(name) && name !in t.tombstones
    && (forall u :: u in t.users ==> t.users[u].name != name)
    && (forall o :: o in t.orgs ==> t.orgs[o].slug != name)
  }

  lemma ValidInCodes(name: string)
    ensures ValidName(name) <==> AllowedName(name)
  {
    if ValidName(name) {
      assert forall c :: c in name ==> NameChar(c);
      forall i | 0 < i < |name| && name[i] as int == 45 ensures name[i - 1] as int != 45 {
        var before, here := name[i - 1], name[i];
        assert !(before == '-' && here == '-');
      }
    }
    if AllowedName(name) {
      forall i | 0 <= i < |name| ensures NameChar(name[i]) { assert name[i] in name; }
      forall i | 0 <= i < |name| - 1 ensures !(name[i] == '-' && name[i + 1] == '-') {
        assert name[i + 1] as int == 45 ==> name[i + 1 - 1] as int != 45;
      }
    }
  }

  lemma CheckExactly(t: Tables, cfg: Config, name: string)
    ensures CheckName(t, cfg, name) == Accepted <==> FreeName(t, cfg, name)
    ensures CheckName(t, cfg, name) != Accepted ==>
              CheckName(t, cfg, name) == Refused(if !AllowedName(name) then Validation
                                                 else if cfg.blocked(name) then Reserved else Unavailable)
  {
    ValidInCodes(name);
    hide ValidName;
    hide AllowedName;
  }

  // ---------------------------------------------------------------- accounts

  /** The invite may still be used, and is not past its time. */
  predicate Open(i: Invite, now: int)
  {
    && !i.revoked
    && (i.maxUses == 0 || i.uses < i.maxUses)
    && (i.expires == 0 || now < i.expires)
  }

  /** It is looked up as good at the very second it expires, and cannot be
      consumed any more. */
  predicate Closing(i: Invite, now: int)
  {
    && !i.revoked
    && (i.maxUses == 0 || i.uses < i.maxUses)
    && i.expires != 0 && now >= i.expires && (i.expires < 0 || now == i.expires)
  }

  lemma OpenIff(i: Invite, now: int)
    ensures Open(i, now) <==> Tenancy.Usable(i, now) && Consumable(i, now)
    ensures Closing(i, now) <==> Tenancy.Usable(i, now) && !Consumable(i, now)
  {
  }

  predicate MailFree(t: Tables, email: string)
  {
    forall u :: u in t.users ==> t.users[u].email != email
  }

  /** The invite admits to an account under this address. */
  predicate ForAccount(i: Invite, email: string)
  {
    !i.forOrg && (i.email == "" || i.email == email)
  }

  /** Registration, mode by mode: who gets in. */
  lemma RegisterExactly(t: Tables, cfg: Config, username: string, email: string, wellFormed: bool, code: string, now: int)
    ensures var name, r := NormalizeName(username), Register(t, cfg, username, email, wellFormed, code, now).1;
            var fit := wellFormed && FreeName(t, cfg, name) && MailFree(t, email);
            && (cfg.registration == Mode.Open ==> (r == Accepted <==> fit))
            && (cfg.registration == Closed ==> r != Accepted)
            && (cfg.registration == ByInvite ==>
                  (r == Accepted <==>
                     && fit && TrimSpace(code) != "" && code in t.invites
                     && ForAccount(t.invites[code], email) && Open(t.invites[code], now)))
            && (!wellFormed || !AllowedName(name) ==> r == Refused(Validation))
            && (wellFormed && AllowedName(name) && cfg.registration == Closed ==> r == Refused(Disallowed))
            && (wellFormed && AllowedName(name) && cfg.registration == ByInvite ==>
                  && (TrimSpace(code) == "" ==> r == Refused(InviteRequired))
                  && (TrimSpace(code) != "" && code !in t.invites ==> r == Refused(InviteInvalid))
                  && (TrimSpace(code) != "" && code in t.invites && !ForAccount(t.invites[code], email) ==> r == Refused(InviteInvalid)))
  {
    hide NormalizeName;
    hide TrimSpace;
    var name := NormalizeName(username);
    CheckExactly(t, cfg, name);
    ValidInCodes(name);
    hide CheckName;
    hide ValidName;
    hide AllowedName;
    if code in t.invites {
      OpenIff(t.invites[code], now);
    }
    hide Tenancy.Usable;
    hide Consumable;
    hide Open;
    hide Closing;
  }

  /** ... and what is there afterwards: an account under the normalized name, the
      invite used once more, and a seat if the invite names an organization. */
  lemma RegisteredAccount(t: Tables, cfg: Config, username: string, email: string, wellFormed: bool, code: string, now: int)
    ensures var (d, r) := Register(t, cfg, username, email, wellFormed, code, now);
            var name, invited := NormalizeName(username), cfg.registration == ByInvite;
            && (r == Accepted ==>
                  && d.users == t.users[t.nextUser := User(name, email)] && d.nextUser == t.nextUser + 1
                  && d.created == t.created + [name] && d.orgs == t.orgs && d.nextOrg == t.nextOrg && d.tombstones == t.tombstones
                  && (!invited ==> d.invites == t.invites && d.seats == t.seats)
                  && (invited ==> code in t.invites)
                  && (invited ==>
                        var i := t.invites[code];
                        && d.invites == t.invites[code := i.(uses := i.uses + 1)]
                        && (i.org.None? ==> d.seats == t.seats)
                        && (i.org.Some? ==> d.seats == t.seats + [Seat(i.org.value, t.nextUser, if i.role == Admin then Admin else Member)])))
            && (r != Accepted ==>
                  d == t || (r == Refused(Internal) && invited && code in t.invites && Closing(t.invites[code], now) &&
                             d == t.(users := t.users[t.nextUser := User(name, email)], nextUser := t.nextUser + 1,
                                     created := t.created + [name])))
  {
    hide NormalizeName;
    hide TrimSpace;
    hide ValidName;
    hide CheckName;
    if code in t.invites {
      OpenIff(t.invites[code], now);
    }
    hide Tenancy.Usable;
    hide Consumable;
    hide Closing;
  }

  /** An account goes, with its rows, if the password is right and it owns no
      organization; its name is never free again. */
  lemma DeleteAccountExactly(t: Tables, user: nat, passwordOk: bool) returns (f: seq<nat>)
    ensures var (d, r) := DeleteAccount(t, user, passwordOk);
            && (r == Accepted <==> user in t.users && passwordOk && forall o :: o in t.orgs ==> t.orgs[o].owner != user)
            && (r != Accepted ==> d == t && r == Refused(if user in t.users && passwordOk then Conflict else Unauthenticated))
            && (r == Accepted ==>
                  && d == t.(users := d.users, seats := d.seats, tombstones := t.tombstones + [t.users[user].name])
                  && d.users.Keys == t.users.Keys - {user} && (forall u :: u in d.users ==> d.users[u] == t.users[u])
                  && Selects(t.seats, d.seats, f))
    ensures forall k :: 0 <= k < |t.seats| ==> (k in f <==> t.seats[k].user != user)
  {
    f := KeptSelects(t.seats, (s: Seat) => s.user != user);
    hide Selects;
    hide Kept;
    OwnedNone(t, user);
  }

  lemma OwnedNone(t: Tables, user: nat)
    ensures CountOwned(t, user) == 0 <==> forall o :: o in t.orgs ==> t.orgs[o].owner != user
  {
    var owned := set o | o in t.orgs && t.orgs[o].owner == user;
    assert |owned| == 0 <==> owned == {};
    if o :| o in t.orgs && t.orgs[o].owner == user {
      assert o in owned;
    }
  }

  // ----------------------------------------------------------- organizations

  function OwnedBy(t: Tables, user: nat): set<nat>
  {
    set o | o in t.orgs && t.orgs[o].owner == user
  }

  /** Nothing but the tables for a new organization: a fresh row, its creator as
      recorded owner and in one owner row. */
  predicate Founded(t: Tables, d: Tables, slug: string, creator: nat)
  {
    && d == t.(orgs := d.orgs, nextOrg := t.nextOrg + 1, seats := d.seats, created := t.created + [slug])
    && d.orgs == t.orgs[t.nextOrg := Org(slug, creator)]
    && d.seats == t.seats + [Seat(t.nextOrg, creator, Owner)]
  }

  lemma OpenOrgExactly(t: Tables, cfg: Config, creator: nat, text: string, fieldsOk: bool)
    ensures var (d, r) := OpenOrg(t, cfg, creator, text, fieldsOk);
            && (r == Accepted <==>
                  && FreeName(t, cfg, NormalizeName(text)) && fieldsOk
                  && (cfg.maxOrgs <= 0 || |OwnedBy(t, creator)| < cfg.maxOrgs))
            && (r == Accepted ==> Founded(t, d, NormalizeName(text), creator))
            && (r != Accepted ==> d == t)
            && (r == Refused(Quota) <==> FreeName(t, cfg, NormalizeName(text)) && 0 < cfg.maxOrgs <= |OwnedBy(t, creator)|)
            && (!AllowedName(NormalizeName(text)) ==> r == Refused(Validation))
  {
    hide NormalizeName;
    CheckExactly(t, cfg, NormalizeName(text));
    assert !AllowedName(NormalizeName(text)) ==> !FreeName(t, cfg, NormalizeName(text));
    hide CheckName;
    hide FreeName;
    hide AllowedName;
    assert OwnedBy(t, creator) == set o | o in t.orgs && t.orgs[o].owner == creator;
  }

  /** Who may found an organization, mode by mode. */
  lemma CreateOrgExactly(t: Tables, cfg: Config, creator: nat, text: string, fieldsOk: bool, code: string, now: int)
    ensures var (d, r) := CreateOrg(t, cfg, creator, text, fieldsOk, code, now);
            var fit := FreeName(t, cfg, NormalizeName(text)) && fieldsOk && (cfg.maxOrgs <= 0 || |OwnedBy(t, creator)| < cfg.maxOrgs);
            var ticket := TrimSpace(code) != "" && code in t.invites && t.invites[code].forOrg && t.invites[code].org.None? &&
                          Open(t.invites[code], now);
            && (cfg.creation == Closed ==> d == t && r == Refused(Disallowed))
            && (cfg.creation == ByInvite && TrimSpace(code) == "" ==> r == Refused(InviteRequired))
            && (cfg.creation == ByInvite && TrimSpace(code) != "" && !ticket ==> r == Refused(InviteInvalid))
            && (cfg.creation == Mode.Open ==> (r == Accepted <==> fit))
            && (cfg.creation == ByInvite ==> (r == Accepted <==> fit && ticket))
            && (cfg.creation != ByInvite || !ticket ==>
                  if r == Accepted then Founded(t, d, NormalizeName(text), creator) else d == t)
            && (cfg.creation == ByInvite && ticket ==>
                  var used := t.(invites := t.invites[code := t.invites[code].(uses := t.invites[code].uses + 1)]);
                  if r == Accepted then Founded(used, d, NormalizeName(text), creator) else d == used)
  {
    hide NormalizeName;
    hide TrimSpace;
    OpenOrgExactly(t, cfg, creator, text, fieldsOk);
    if code in t.invites {
      OpenIff(t.invites[code], now);
      OpenOrgExactly(Consumed(t, code), cfg, creator, text, fieldsOk);
    }
    hide OpenOrg;
    hide Tenancy.Usable;
    hide Consumable;
    hide Open;
    hide Closing;
    hide AllowedName;
  }

  /** An organization goes when its slug is typed to confirm, with its rows and its
      invites; the slug is never free again. */
  lemma DeleteOrgExactly(t: Tables, org: nat, confirm: string) returns (f: seq<nat>)
    ensures var (d, r) := DeleteOrg(t, org, confirm);
            && (r == Accepted <==> org in t.orgs && NormalizeName(confirm) == t.orgs[org].slug)
            && (r != Accepted ==> d == t && r == Refused(if org in t.orgs then Validation else NotFound))
            && (r == Accepted ==>
                  && d == t.(orgs := d.orgs, seats := d.seats, invites := d.invites, tombstones := t.tombstones + [t.orgs[org].slug])
                  && d.orgs.Keys == t.orgs.Keys - {org} && (forall o :: o in d.orgs ==> d.orgs[o] == t.orgs[o])
                  && (forall c :: c in d.invites <==> c in t.invites && t.invites[c].org != Some(org))
                  && (forall c :: c in d.invites ==> d.invites[c] == t.invites[c])
                  && Selects(t.seats, d.seats, f))
    ensures forall k :: 0 <= k < |t.seats| ==> (k in f <==> t.seats[k].org != org)
  {
    hide NormalizeName;
    f := KeptSelects(t.seats, (s: Seat) => s.org != org);
    hide Selects;
    hide Kept;
  }

  // ----------------------------------------------------------------- invites

  /** An invite seats a user exactly if it is one for a live organization with
      room, is still open, and is not bound to another address. */
  predicate Seats(t: Tables, cfg: Config, i: Invite, user: nat, now: int)
  {
    && i.forOrg && i.org.Some? && i.org.value in t.orgs
    && Open(i, now) && HasRoom(t, cfg, i.org.value)
    && user in t.users && (i.email == "" || i.email == t.users[user].email)
  }

  lemma AcceptExactly(t: Tables, cfg: Config, user: nat, code: string, now: int)
    ensures var (d, r) := AcceptOrgInvite(t, cfg, user, code, now);
            && (r == Accepted <==> code in t.invites && Seats(t, cfg, t.invites[code], user, now))
            && (r != Accepted ==> d == t && r in {Refused(InviteInvalid), Refused(Unauthenticated), Refused(Quota)})
            && (code !in t.invites ==> r == Refused(InviteInvalid))
            && (code in t.invites && Open(t.invites[code], now) && t.invites[code].forOrg && t.invites[code].org.Some? ==>
                  && (r == Refused(Unauthenticated) <==> user !in t.users)
                  && (r == Refused(Quota) <==>
                        && user in t.users && t.invites[code].org.value in t.orgs && !HasRoom(t, cfg, t.invites[code].org.value)
                        && (t.invites[code].email == "" || t.invites[code].email == t.users[user].email)))
            && (r == Accepted ==> var i := t.invites[code];
                  d == t.(seats := t.seats + [Seat(i.org.value, user, if i.role == Admin then Admin else Member)],
                          invites := t.invites[code := i.(uses := i.uses + 1)]))
  {
    if code in t.invites {
      OpenIff(t.invites[code], now);
      if t.invites[code].org.Some? {
        CountsRows(t.seats, t.invites[code].org.value);
      }
    }
    hide Tenancy.Usable;
    hide Consumable;
    hide Open;
    hide Closing;
    hide CountMembers;
  }

  /** The life of an invitation to an organization: it admits one user, of the
      address it names, before its time and unless revoked; and then no one. */
  lemma InviteLife(t: Tables, cfg: Config, org: nat, email: string, wellFormed: bool, role: Role, code: string, expires: int,
                   user: nat, now: int, other: nat, later: int)
    ensures var (d, r) := InviteOrgMember(t, cfg, org, email, wellFormed, role, code, expires);
            && (r == Accepted <==> (role == Admin || role == Member) && wellFormed && HasRoom(t, cfg, org) && org in t.orgs)
            && (r != Accepted ==>
                  d == t && r == Refused(if !wellFormed || (role != Admin && role != Member) then Validation
                                         else if !HasRoom(t, cfg, org) then Quota else NotFound))
            && (r == Accepted ==>
                  && d == t.(invites := d.invites) && (forall c :: c != code ==> (c in d.invites <==> c in t.invites))
                  && (forall c :: c in t.invites && c != code ==> d.invites[c] == t.invites[c])
                  && var (joined, s) := AcceptOrgInvite(d, cfg, user, code, now);
                     && (s == Accepted <==>
                           && user in t.users && (email == "" || email == t.users[user].email)
                           && (expires == 0 || now < expires))
                     && (s == Accepted ==>
                           && joined.seats == t.seats + [Seat(org, user, role)]
                           && AcceptOrgInvite(joined, cfg, other, code, later) == (joined, Refused(InviteInvalid)))
                     && AcceptOrgInvite(RevokeOrgInvite(d, org, code).0, cfg, user, code, now).1 == Refused(InviteInvalid))
  {
    CountsRows(t.seats, org);
    hide CountMembers;
    var (d, r) := InviteOrgMember(t, cfg, org, email, wellFormed, role, code, expires);
    if r == Accepted {
      AcceptExactly(d, cfg, user, code, now);
      var joined := AcceptOrgInvite(d, cfg, user, code, now).0;
    }
  }

  /** Revoking touches one invite of that organization, or nothing. */
  lemma RevokeExactly(t: Tables, org: nat, code: string)
    ensures var (d, r) := RevokeOrgInvite(t, org, code);
            && r == Accepted && d == t.(invites := d.invites) && d.invites.Keys == t.invites.Keys
            && forall c :: c in t.invites ==>
                 d.invites[c] == if c == code && t.invites[c].org == Some(org) then t.invites[c].(revoked := true) else t.invites[c]
  {
  }

  /** A registration invite for up to 1000 uses, never fewer than one. */
  lemma UserInviteExactly(t: Tables, email: string, wellFormed: bool, maxUses: int, code: string, expires: int, mail: string, now: int)
    ensures var (d, r) := CreateUserInvite(t, email, wellFormed, maxUses, code, expires);
            && (r == Accepted <==> wellFormed && 0 <= maxUses <= 1000)
            && (r != Accepted ==> d == t)
            && (r == Accepted ==>
                  && d == t.(invites := d.invites) && code in d.invites
                  && (forall c :: c != code ==> (c in d.invites <==> c in t.invites))
                  && (forall c :: c in t.invites && c != code ==> d.invites[c] == t.invites[c])
                  && var i := d.invites[code];
                     && 1 <= i.maxUses - i.uses == (if maxUses == 0 then 1 else maxUses) && i.uses == 0 && i.org.None?
                     && (ForAccount(i, mail) <==> email == "" || email == mail)
                     && (Open(i, now) <==> expires == 0 || now < expires))
  {
  }
}
