/** The admins' region and district directory (handlers/admins/add_regions.py):
    who may manage it, the name guards of the add and rename steps, the
    district-delete guard, the region-delete cascade, and which admins are
    told about each change. */
module Regions {
  import opened Text
  import opened Lifecycle

  // ---------------------------------------------------------------------
  // Access and notification

  /** The outcome of looking a user up by telegram id. */
  datatype Lookup = Found(user: User) | NotFound | LookupError

  function IsAdminRole(role: Role): bool {
    role == Admin || role == SuperAdmin
  }

  /** `check_admin_access`. */
  function AdminAccess(lookup: Lookup): (r: bool)
    ensures r <==> lookup.Found? && (lookup.user.role == Admin || lookup.user.role == SuperAdmin)
    ensures lookup.LookupError? ==> !r
  {
    match lookup
    case Found(u) => IsAdminRole(u.role)
    case NotFound => false
    case LookupError => false
  }

  /** A registered user as `notify_admins` sees one. */
  datatype Account = Account(telegramId: int, role: Role)

  /** `exclude_user_id and admin_id == exclude_user_id`: a missing or zero
      id excludes nobody. */
  function Excluded(exclude: Option<int>, id: int): bool {
    exclude.Some? && exclude.value != 0 && id == exclude.value
  }

  /** The chats `notify_admins` writes to, in the order of the accounts. */
  function Recipients(accounts: seq<Account>, exclude: Option<int>): seq<int> {
    if accounts == [] then []
    else
      var a := accounts[|accounts| - 1];
      Recipients(accounts[..|accounts| - 1], exclude)
      + (if IsAdminRole(a.role) && !Excluded(exclude, a.telegramId) then [a.telegramId] else [])
  }

  /** Every ADMIN and SUPER_ADMIN is told, except the acting admin, and
      nobody else is. */
  lemma {:induction false} RecipientsAreOtherAdmins(accounts: seq<Account>, exclude: Option<int>, id: int)
    ensures id in Recipients(accounts, exclude) <==>
      !Excluded(exclude, id) && exists i :: 0 <= i < |accounts| && accounts[i].telegramId == id && IsAdminRole(accounts[i].role)
  {
    if accounts != [] {
      var init := accounts[..|accounts| - 1];
      RecipientsAreOtherAdmins(init, exclude, id);
      if !Excluded(exclude, id) && exists i :: 0 <= i < |accounts| && accounts[i].telegramId == id && IsAdminRole(accounts[i].role) {
        var i :| 0 <= i < |accounts| && accounts[i].telegramId == id && IsAdminRole(accounts[i].role);
        if i < |init| {
          assert init[i] == accounts[i];
        }
      }
    }
  }

  /** The loop of `notify_admins` over the admin accounts. */
  method NotifyAdmins(accounts: seq<Account>, exclude: Option<int>) returns (sent: seq<int>)
    ensures sent == Recipients(accounts, exclude)
  {
    sent := [];
    var i := 0;
    while i < |accounts|
      invariant 0 <= i <= |accounts|
      invariant sent == Recipients(accounts[..i], exclude)
    {
      var a := accounts[i];
      assert accounts[..i + 1][..i] == accounts[..i];
      if IsAdminRole(a.role) {
        if !Excluded(exclude, a.telegramId) {
          sent := sent + [a.telegramId];
        }
      }
      i := i + 1;
    }
    assert accounts[..i] == accounts;
  }

  // ---------------------------------------------------------------------
  // The directory

  datatype District = District(regionId: int, name: string)

  /** The places an order starts from and goes to. */
  datatype Route = Route(fromRegion: int, fromDistrict: int, toRegion: int, toDistrict: int)

  /** The result of checking a typed name. */
  datatype NameCheck = TooShort | Taken | Accepted(name: string)

  /** What a confirmed change did. */
  datatype Change = Done(id: int) | Missing | Blocked(orders: nat) | Rejected(check: NameCheck)

  /** Stripped names shorter than two characters are refused. */
  predicate LongEnough(name: string) {
    |name| >= 2
  }

  class Directory {
    var regions: map<int, string>
    var districts: map<int, District>
    var orders: map<int, Route>
    var nextRegionId: int
    var nextDistrictId: int

    /** Region names are unique, district names are unique within their
        region, every district belongs to an existing region, and new ids
        are fresh. */
    ghost predicate Valid()
      reads this
    {
      (forall r1, r2 :: r1 in regions && r2 in regions && regions[r1] == regions[r2] ==> r1 == r2)
      && (forall d1, d2 ::
            (d1 in districts && d2 in districts
             && districts[d1].regionId == districts[d2].regionId && districts[d1].name == districts[d2].name) ==> d1 == d2)
      && (forall d :: d in districts ==> districts[d].regionId in regions)
      && (forall r :: r in regions ==> r < nextRegionId)
      && (forall d :: d in districts ==> d < nextDistrictId)
    }

    /** Every order's districts exist. */
    ghost predicate RoutesResolve()
      reads this
    {
      forall o :: o in orders ==> orders[o].fromDistrict in districts && orders[o].toDistrict in districts
    }

    constructor ()
      ensures regions == map[] && districts == map[] && orders == map[]
      ensures Valid() && RoutesResolve()
    {
      regions := map[];
      districts := map[];
      orders := map[];
      nextRegionId := 1;
      nextDistrictId := 1;
    }

    predicate RegionNameTaken(name: string)
      reads this
    {
      exists r :: r in regions && regions[r] == name
    }

    predicate DistrictNameTaken(regionId: int, name: string)
      reads this
    {
      exists d :: d in districts && districts[d].regionId == regionId && districts[d].name == name
    }

    /** `process_new_region_name`: the typed name, stripped, must be at
        least two characters long and not already a region's name. */
    function CheckNewRegionName(text: string): (r: NameCheck)
      reads this
      ensures r == TooShort <==> !LongEnough(Strip(text))
      ensures r == Taken <==> LongEnough(Strip(text)) && RegionNameTaken(Strip(text))
      ensures r.Accepted? ==>
        (r.name == Strip(text) && LongEnough(r.name) && forall k :: k in regions ==> regions[k] != r.name)
    {
      var name := Strip(text);
      if !LongEnough(name) then TooShort
      else if RegionNameTaken(name) then Taken
      else Accepted(name)
    }

    /** `confirm_region_addition`: the accepted name is stored under a new
        id. The name is not checked again. */
    method ConfirmAddRegion(name: string) returns (id: int)
      requires Valid()
      modifies this
      ensures id == old(nextRegionId) && id !in old(regions)
      ensures regions == old(regions)[id := name] && nextRegionId == old(nextRegionId) + 1
      ensures districts == old(districts) && orders == old(orders) && nextDistrictId == old(nextDistrictId)
      ensures old(!RegionNameTaken(name)) ==> Valid()
      ensures old(RoutesResolve()) ==> RoutesResolve()
    {
      id := nextRegionId;
      regions := regions[id := name];
      nextRegionId := nextRegionId + 1;
    }

    /** `process_edit_region_name`: the region may keep its own name; only
        another region holding the new name blocks the rename. A region
        that no longer exists is not renamed. */
    method RenameRegion(regionId: int, text: string) returns (c: Change)
      requires Valid()
      modifies this`regions
      ensures Valid()
      ensures !LongEnough(Strip(text)) ==> c == Rejected(TooShort) && regions == old(regions)
      ensures LongEnough(Strip(text)) && (exists r :: r in old(regions) && old(regions)[r] == Strip(text) && r != regionId) ==>
        c == Rejected(Taken) && regions == old(regions)
      ensures c == Done(regionId) <==>
        LongEnough(Strip(text)) && regionId in old(regions)
        && !(exists r :: r in old(regions) && old(regions)[r] == Strip(text) && r != regionId)
      ensures c == Done(regionId) ==> regions == old(regions)[regionId := Strip(text)]
      ensures c != Done(regionId) ==> regions == old(regions)
    {
      var name := Strip(text);
      if !LongEnough(name) {
        return Rejected(TooShort);
      }
      if exists r :: r in regions && regions[r] == name && r != regionId {
        return Rejected(Taken);
      }
      if regionId !in regions {
        return Missing;
      }
      regions := regions[regionId := name];
      c := Done(regionId);
    }

    /** `start_delete_region`: the region's district count and order count,
        shown as warnings; neither stops the deletion. */
    function RegionDeleteWarning(regionId: int): (r: Option<(nat, nat)>)
      reads this
      ensures r.None? <==> regionId !in regions
      ensures r.Some? ==>
        r.value.0 == |set d | d in districts && districts[d].regionId == regionId|
        && r.value.1 == |set o | o in orders && orders[o].fromRegion == regionId|
                      + |set o | o in orders && orders[o].toRegion == regionId|
    {
      if regionId !in regions then None
      else Some((|set d | d in districts && districts[d].regionId == regionId|,
                 |set o | o in orders && orders[o].fromRegion == regionId|
                 + |set o | o in orders && orders[o].toRegion == regionId|))
    }

    /** `confirm_region_deletion`: the region goes, and its districts with
        it; orders are not looked at. */
    method ConfirmDeleteRegion(regionId: int) returns (c: Change)
      requires Valid()
      modifies this`regions, this`districts
      ensures Valid()
      ensures c == Done(regionId) <==> regionId in old(regions)
      ensures c != Done(regionId) ==> c == Missing && regions == old(regions) && districts == old(districts)
      ensures c == Done(regionId) ==>
        regions == old(regions) - {regionId}
        && districts == map d | d in old(districts) && old(districts)[d].regionId != regionId :: old(districts)[d]
    {
      if regionId !in regions {
        return Missing;
      }
      regions := regions - {regionId};
      districts := map d | d in districts && districts[d].regionId != regionId :: districts[d];
      c := Done(regionId);
    }

    /** `process_new_district_name`: like a region name, but it only has
        to be free within the district's own region. */
    function CheckNewDistrictName(regionId: int, text: string): (r: NameCheck)
      reads this
      ensures r == TooShort <==> !LongEnough(Strip(text))
      ensures r == Taken <==> LongEnough(Strip(text)) && DistrictNameTaken(regionId, Strip(text))
      ensures r.Accepted? ==>
        (r.name == Strip(text) && LongEnough(r.name)
         && forall d :: d in districts && districts[d].regionId == regionId ==> districts[d].name != r.name)
    {
      var name := Strip(text);
      if !LongEnough(name) then TooShort
      else if DistrictNameTaken(regionId, name) then Taken
      else Accepted(name)
    }

    /** `confirm_district_addition`: the district is created in the region;
        a region deleted meanwhile makes the creation fail. */
    method ConfirmAddDistrict(regionId: int, name: string) returns (c: Change)
      requires Valid()
      modifies this`districts, this`nextDistrictId
      ensures c.Done? <==> regionId in regions
      ensures c.Done? ==>
        (c.id == old(nextDistrictId) && c.id !in old(districts)
         && districts == old(districts)[c.id := District(regionId, name)] && nextDistrictId == old(nextDistrictId) + 1)
      ensures !c.Done? ==> c == Missing && districts == old(districts) && nextDistrictId == old(nextDistrictId)
      ensures old(!DistrictNameTaken(regionId, name)) ==> Valid()
      ensures old(RoutesResolve()) ==> RoutesResolve()
    {
      if regionId !in regions {
        return Missing;
      }
      var id := nextDistrictId;
      districts := districts[id := District(regionId, name)];
      nextDistrictId := nextDistrictId + 1;
      c := Done(id);
    }

    /** `process_edit_district_name`: only another district of the same
        region holding the new name blocks the rename. */
    method RenameDistrict(districtId: int, regionId: int, text: string) returns (c: Change)
      requires Valid()
      requires districtId in districts ==> districts[districtId].regionId == regionId
      modifies this`districts
      ensures Valid()
      ensures !LongEnough(Strip(text)) ==> c == Rejected(TooShort)
      ensures c == Done(districtId) <==>
        LongEnough(Strip(text)) && districtId in old(districts)
        && !(exists d :: d in old(districts) && old(districts)[d].regionId == regionId
               && old(districts)[d].name == Strip(text) && d != districtId)
      ensures c == Done(districtId) ==>
        districts == old(districts)[districtId := District(regionId, Strip(text))]
      ensures c != Done(districtId) ==> districts == old(districts)
    {
      var name := Strip(text);
      if !LongEnough(name) {
        return Rejected(TooShort);
      }
      if exists d :: d in districts && districts[d].regionId == regionId && districts[d].name == name && d != districtId {
        return Rejected(Taken);
      }
      if districtId !in districts {
        return Missing;
      }
      districts := districts[districtId := District(regionId, name)];
      c := Done(districtId);
    }

    /** How many times orders name the district, as origin plus as
        destination. */
    function DistrictOrderCount(districtId: int): (n: nat)
      reads this
      ensures n == 0 <==> forall o :: o in orders ==> orders[o].fromDistrict != districtId && orders[o].toDistrict != districtId
    {
      var from := set o | o in orders && orders[o].fromDistrict == districtId;
      var to := set o | o in orders && orders[o].toDistrict == districtId;
      if exists o :: o in orders && (orders[o].fromDistrict == districtId || orders[o].toDistrict == districtId) then
        var o :| o in orders && (orders[o].fromDistrict == districtId || orders[o].toDistrict == districtId);
        assert o in from || o in to;
        |from| + |to|
      else
        assert from == {} && to == {};
        0
    }

    /** `start_delete_district`: a district some order names cannot be
        deleted. */
    function DistrictDeletable(districtId: int): (r: Change)
      reads this
      ensures r == Missing <==> districtId !in districts
      ensures r.Blocked? <==> districtId in districts && DistrictOrderCount(districtId) > 0
      ensures r.Done? ==>
        (r.id == districtId && districtId in districts
         && forall o :: o in orders ==> orders[o].fromDistrict != districtId && orders[o].toDistrict != districtId)
    {
      if districtId !in districts then Missing
      else if DistrictOrderCount(districtId) > 0 then Blocked(DistrictOrderCount(districtId))
      else Done(districtId)
    }

    /** `confirm_district_deletion`: the order check is repeated before the
        district is deleted, so no order is left naming it. */
    method ConfirmDeleteDistrict(districtId: int) returns (c: Change)
      requires Valid()
      modifies this`districts
      ensures Valid()
      ensures c == old(DistrictDeletable(districtId))
      ensures c.Done? ==> districts == old(districts) - {districtId}
      ensures !c.Done? ==> districts == old(districts)
      ensures old(RoutesResolve()) ==> RoutesResolve()
    {
      c := DistrictDeletable(districtId);
      if c.Done? {
        districts := districts - {districtId};
      }
    }
  }
}
