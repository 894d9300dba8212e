/** The account and organization service as the program runs it: tables updated
    row by row. Every method is proved equal to the tenancy operation it carries
    out. */
module TenancyService {
  import opened Text
  import opened Tenancy

  class Directory {
    const cfg: Config
    var users: map<nat, User>
    var nextUser: nat
    var orgs: map<nat, Org>
    var nextOrg: nat
    var seats: seq<Seat>
    var tombstones: seq<string>
    var invites: map<string, Invite>
    ghost var created: seq<string>

    ghost function State(): Tables
      reads this
    {
      Tables(users, nextUser, orgs, nextOrg, seats, tombstones, invites, created)
    }

    constructor (cfg: Config)
      ensures State() == EMPTY && this.cfg == cfg
    {
      this.cfg := cfg;
      users, nextUser, orgs, nextOrg := map[], 0, map[], 0;
      seats, tombstones, invites, created := [], [], map[], [];
    }

    method OrgRole(org: nat, user: nat) returns (r: Option<Role>)
      ensures r == RoleOf(seats, org, user)
    {
      for k := 0 to |seats|
        invariant RoleOf(seats[k..], org, user) == RoleOf(seats, org, user)
      {
        if seats[k].org == org && seats[k].user == user {
          return Some(seats[k].role);
        }
        assert seats[k..][1..] == seats[k + 1..];
      }
      return None;
    }

    method CountOrgOwners(org: nat) returns (n: nat)
      ensures n == CountOwners(seats, org)
    {
      n := 0;
      for k := 0 to |seats|
        invariant n == CountOwners(seats[..k], org)
      {
        assert seats[..k + 1][..k] == seats[..k];
        if seats[k].org == org && seats[k].role == Owner {
          n := n + 1;
        }
      }
      assert seats[..|seats|] == seats;
    }

    method CountOrgMembers(org: nat) returns (n: nat)
      ensures n == CountMembers(seats, org)
    {
      n := 0;
      for k := 0 to |seats|
        invariant n == CountMembers(seats[..k], org)
      {
        assert seats[..k + 1][..k] == seats[..k];
        if seats[k].org == org {
          n := n + 1;
        }
      }
      assert seats[..|seats|] == seats;
    }

    method UpdateRole(org: nat, user: nat, role: Role)
      modifies this`seats
      ensures seats == Reseated(old(seats), org, user, role)
    {
      for k := 0 to |seats|
        invariant |seats| == |old(seats)|
        invariant forall j :: 0 <= j < |seats| ==>
                    seats[j] == if j < k then Reseated(old(seats), org, user, role)[j] else old(seats)[j]
      {
        if seats[k].org == org && seats[k].user == user {
          seats := seats[k := seats[k].(role := role)];
        }
      }
    }

    method DeleteSeats(keep: Seat -> bool)
      modifies this`seats
      ensures seats == Kept(old(seats), keep)
    {
      var rest: seq<Seat> := [];
      for k := 0 to |seats|
        invariant seats == old(seats) && rest == Kept(seats[..k], keep)
      {
        assert seats[..k + 1][..k] == seats[..k];
        if keep(seats[k]) {
          rest := rest + [seats[k]];
        }
      }
      assert seats[..|seats|] == seats;
      seats := rest;
    }

    method Check(name: string) returns (r: Reply)
      ensures r == CheckName(State(), cfg, name)
    {
      if !ValidName(name) {
        return Refused(Validation);
      }
      if cfg.blocked(name) {
        return Refused(Reserved);
      }
      var taken := (exists u :: u in users && users[u].name == name) || (exists o :: o in orgs && orgs[o].slug == name);
      if taken || name in tombstones {
        return Refused(Unavailable);
      }
      return Accepted;
    }

    method Register(username: string, email: string, wellFormed: bool, code: string, now: int) returns (r: Reply)
      modifies this
      ensures (State(), r) == Tenancy.Register(old(State()), cfg, username, email, wellFormed, code, now)
    {
      hide ValidName;
      hide TrimSpace;
      hide NormalizeName;
      hide CheckName;
      hide Usable;
      hide Admitted;
      var name := NormalizeName(username);
      if !ValidName(name) || !wellFormed {
        return Refused(Validation);
      }
      var invite := None;
      if cfg.registration == Closed {
        return Refused(Disallowed);
      } else if cfg.registration == ByInvite {
        if TrimSpace(code) == "" {
          return Refused(InviteRequired);
        }
        if code !in invites || !Usable(invites[code], now) || invites[code].forOrg {
          return Refused(InviteInvalid);
        }
        if invites[code].email != "" && invites[code].email != email {
          return Refused(InviteInvalid);
        }
        invite := Some(invites[code]);
      }
      var checked := Check(name);
      if checked != Accepted {
        return checked;
      }
      if exists u :: u in users && users[u].email == email {
        return Refused(Unavailable);
      }
      if invite.Some? {
        r := Admit(name, email, code, now);
        return;
      }
      users, nextUser, created := users[nextUser := User(name, email)], nextUser + 1, created + [name];
      return Accepted;
    }

    /** Creates the account, consumes the invite and seats the new member. */
    method Admit(name: string, email: string, code: string, now: int) returns (r: Reply)
      requires code in invites
      modifies this
      ensures (State(), r) == Admitted(old(State()), name, email, code, now)
    {
      hide Consumable;
      var id, invite := nextUser, invites[code];
      users, nextUser, created := users[id := User(name, email)], nextUser + 1, created + [name];
      if !Consumable(invite, now) {
        return Refused(Internal);
      }
      invites := invites[code := invite.(uses := invite.uses + 1)];
      if invite.org.Some? {
        var role := invite.role;
        if role != Admin && role != Member {
          role := Member;
        }
        seats := seats + [Seat(invite.org.value, id, role)];
      }
      return Accepted;
    }

    method CreateOrg(creator: nat, text: string, fieldsOk: bool, code: string, now: int) returns (r: Reply)
      modifies this
      ensures (State(), r) == Tenancy.CreateOrg(old(State()), cfg, creator, text, fieldsOk, code, now)
    {
      hide CheckName;
      hide TrimSpace;
      hide NormalizeName;
      hide Usable;
      hide Consumable;
      if cfg.creation == Closed {
        return Refused(Disallowed);
      } else if cfg.creation == ByInvite {
        if TrimSpace(code) == "" {
          return Refused(InviteRequired);
        }
        if code !in invites || !Usable(invites[code], now) || !invites[code].forOrg || invites[code].org.Some? {
          return Refused(InviteInvalid);
        }
        if !Consumable(invites[code], now) {
          return Refused(InviteInvalid);
        }
        invites := invites[code := invites[code].(uses := invites[code].uses + 1)];
      }
      var slug := NormalizeName(text);
      var checked := Check(slug);
      if checked != Accepted {
        return checked;
      }
      if cfg.maxOrgs > 0 && |set o | o in orgs && orgs[o].owner == creator| >= cfg.maxOrgs {
        return Refused(Quota);
      }
      if !fieldsOk {
        return Refused(Validation);
      }
      orgs, nextOrg, created := orgs[nextOrg := Org(slug, creator)], nextOrg + 1, created + [slug];
      seats := seats + [Seat(nextOrg - 1, creator, Owner)];
      return Accepted;
    }

    method AddOrgMember(org: nat, username: string, role: Role) returns (r: Reply)
      modifies this
      ensures (State(), r) == Tenancy.AddOrgMember(old(State()), cfg, org, username, role)
    {
      hide NormalizeName;
      if role != Admin && role != Member {
        return Refused(Validation);
      }
      if cfg.maxMembers > 0 {
        var n := CountOrgMembers(org);
        if n >= cfg.maxMembers {
          return Refused(Quota);
        }
      }
      var u := FindUser(users, NormalizeName(username), nextUser);
      if u.None? {
        return Refused(NotFound);
      }
      var existing := OrgRole(org, u.value);
      if existing.Some? {
        return Refused(Conflict);
      }
      seats := seats + [Seat(org, u.value, role)];
      return Accepted;
    }

    method SetOrgMemberRole(org: nat, target: nat, role: Role) returns (r: Reply)
      modifies this
      ensures (State(), r) == Tenancy.SetOrgMemberRole(old(State()), org, target, role)
    {
      hide Reseated;
      if role != Admin && role != Member {
        return Refused(Validation);
      }
      var current := OrgRole(org, target);
      if current.None? {
        return Refused(NotFound);
      }
      if current.value == Owner {
        var owners := CountOrgOwners(org);
        if owners <= 1 {
          return Refused(LastOwner);
        }
      }
      UpdateRole(org, target, role);
      return Accepted;
    }

    method RemoveOrgMember(org: nat, target: nat) returns (r: Reply)
      modifies this
      ensures (State(), r) == Tenancy.RemoveOrgMember(old(State()), org, target)
    {
      var current := OrgRole(org, target);
      if current.None? {
        return Refused(NotFound);
      }
      if current.value == Owner {
        var owners := CountOrgOwners(org);
        if owners <= 1 {
          return Refused(LastOwner);
        }
      }
      DeleteSeats((s: Seat) => !(s.org == org && s.user == target));
      return Accepted;
    }

    method TransferOrgOwnership(org: nat, actor: nat, target: nat) returns (r: Reply)
      modifies this
      ensures (State(), r) == Tenancy.TransferOrgOwnership(old(State()), org, actor, target)
    {
      hide Reseated;
      if actor == target {
        return Refused(Validation);
      }
      var role := OrgRole(org, target);
      if role.None? {
        return Refused(NotFound);
      }
      UpdateRole(org, target, Owner);
      UpdateRole(org, actor, Admin);
      if org in orgs {
        orgs := orgs[org := orgs[org].(owner := target)];
      }
      return Accepted;
    }

    method InviteOrgMember(org: nat, email: string, wellFormed: bool, role: Role, code: string, expires: int) returns (r: Reply)
      modifies this
      ensures (State(), r) == Tenancy.InviteOrgMember(old(State()), cfg, org, email, wellFormed, role, code, expires)
    {
      if (role != Admin && role != Member) || !wellFormed {
        return Refused(Validation);
      }
      if cfg.maxMembers > 0 {
        var n := CountOrgMembers(org);
        if n >= cfg.maxMembers {
          return Refused(Quota);
        }
      }
      if org !in orgs {
        return Refused(NotFound);
      }
      invites := invites[code := Invite(true, Some(org), role, email, 1, 0, expires, false)];
      return Accepted;
    }

    method CreateUserInvite(email: string, wellFormed: bool, maxUses: int, code: string, expires: int) returns (r: Reply)
      modifies this
      ensures (State(), r) == Tenancy.CreateUserInvite(old(State()), email, wellFormed, maxUses, code, expires)
    {
      if !wellFormed {
        return Refused(Validation);
      }
      if maxUses < 0 || maxUses > 1000 {
        return Refused(Validation);
      }
      var uses := maxUses;
      if uses == 0 {
        uses := 1;
      }
      invites := invites[code := Invite(false, None, OtherRole(""), email, uses, 0, expires, false)];
      return Accepted;
    }

    method RevokeOrgInvite(org: nat, code: string) returns (r: Reply)
      modifies this
      ensures (State(), r) == Tenancy.RevokeOrgInvite(old(State()), org, code)
    {
      if code in invites && invites[code].org == Some(org) {
        invites := invites[code := invites[code].(revoked := true)];
      }
      return Accepted;
    }

    method AcceptOrgInvite(user: nat, code: string, now: int) returns (r: Reply)
      modifies this
      ensures (State(), r) == Tenancy.AcceptOrgInvite(old(State()), cfg, user, code, now)
    {
      if code !in invites || !Usable(invites[code], now) || !invites[code].forOrg || invites[code].org.None? {
        return Refused(InviteInvalid);
      }
      var i := invites[code];
      if user !in users {
        return Refused(Unauthenticated);
      }
      if i.email != "" && i.email != users[user].email {
        return Refused(InviteInvalid);
      }
      if i.org.value !in orgs {
        return Refused(InviteInvalid);
      }
      if cfg.maxMembers > 0 {
        var n := CountOrgMembers(i.org.value);
        if n >= cfg.maxMembers {
          return Refused(Quota);
        }
      }
      var role := i.role;
      if role != Admin && role != Member {
        role := Member;
      }
      if !Consumable(i, now) {
        return Refused(InviteInvalid);
      }
      invites := invites[code := i.(uses := i.uses + 1)];
      seats := seats + [Seat(i.org.value, user, role)];
      return Accepted;
    }

    method DeleteOrg(org: nat, confirm: string) returns (r: Reply)
      modifies this
      ensures (State(), r) == Tenancy.DeleteOrg(old(State()), org, confirm)
    {
      hide NormalizeName;
      if org !in orgs {
        return Refused(NotFound);
      }
      if NormalizeName(confirm) != orgs[org].slug {
        return Refused(Validation);
      }
      tombstones := tombstones + [orgs[org].slug];
      DeleteSeats((s: Seat) => s.org != org);
      invites := map c | c in invites && invites[c].org != Some(org) :: invites[c];
      orgs := orgs - {org};
      return Accepted;
    }

    method DeleteAccount(user: nat, passwordOk: bool) returns (r: Reply)
      modifies this
      ensures (State(), r) == Tenancy.DeleteAccount(old(State()), user, passwordOk)
    {
      if user !in users || !passwordOk {
        return Refused(Unauthenticated);
      }
      if |set o | o in orgs && orgs[o].owner == user| > 0 {
        return Refused(Conflict);
      }
      tombstones := tombstones + [users[user].name];
      DeleteSeats((s: Seat) => s.user != user);
      users := users - {user};
      return Accepted;
    }
  }
}
