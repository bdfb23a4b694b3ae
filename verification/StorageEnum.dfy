/**
 Enumerating devices through the API: the caller feeds the cookie of the device it got back in
 and receives the next one, while flags for each storage group remember what was visited.
 */
module StorageEnum {

  type Cookie = nat
  const NULL: Cookie := 0

  const ENUM_MAX := 5
  const API_EINVAL := 1
  const API_ENODEV := 2

  /**
   The devices of the machine: `get_dev` for group and index, which devices are active, and what is
   reported of a storage device.
   */
  datatype Devices = Devices(
    maxDev: seq<nat>, getDev: (nat, nat) -> Cookie, active: Cookie -> bool, net: Cookie,
    groupType: nat -> nat, lba: Cookie -> nat, blksz: Cookie -> nat) {
    predicate Has(g: nat, c: Cookie)
      requires g < |maxDev|
    {
      exists j :: 0 <= j < maxDev[g] && getDev(g, j) == c
    }

    /** Cookies identify devices, and a group without devices has no first one. */
    ghost predicate Valid()
    {
      && |maxDev| == ENUM_MAX
      && (forall g, h, i, j ::
            (0 <= g < ENUM_MAX && 0 <= h < ENUM_MAX && 0 <= i < maxDev[g] && 0 <= j < maxDev[h]
             && getDev(g, i) != NULL && getDev(g, i) == getDev(h, j)) ==>
              g == h && i == j)
      && (forall g :: 0 <= g < ENUM_MAX && maxDev[g] == 0 ==> getDev(g, 0) == NULL)
      && (net != NULL ==> forall g :: 0 <= g < ENUM_MAX ==> !Has(g, net))
    }
  }

  /** `enum_started` and `enum_ended` of the storage groups. */
  datatype Flags = Flags(started: seq<bool>, ended: seq<bool>) {
    predicate Valid()
    {
      |started| == ENUM_MAX && |ended| == ENUM_MAX
    }
  }

  datatype Got = Got(found: bool, more: bool, cookie: Cookie)

  // ---------------------------------------------------------------------------------
  // The calls as functions

  /** The first index from `i` on at which the group has the cookie, or `max_dev`. */
  function IndexOf(d: Devices, g: nat, c: Cookie, i: nat): (k: nat)
    requires g < |d.maxDev| && i <= d.maxDev[g]
    ensures i <= k <= d.maxDev[g]
    ensures k < d.maxDev[g] ==> d.getDev(g, k) == c
    ensures forall j :: i <= j < k ==> d.getDev(g, j) != c
    decreases d.maxDev[g] - i
  {
    if i == d.maxDev[g] || d.getDev(g, i) == c then i else IndexOf(d, g, c, i + 1)
  }

  function Judged(d: Devices, c: Cookie, more: bool): Got
  {
    if c == NULL then Got(false, false, NULL) else Got(d.active(c), more, c)
  }

  /** `dev_stor_get` */
  function StorGetSpec(d: Devices, g: nat, first: bool, c: Cookie): Got
    requires g < |d.maxDev|
  {
    if first then Judged(d, d.getDev(g, 0), false)
    else
      var next := IndexOf(d, g, c, 0) + 1;
      if next >= d.maxDev[g] then Got(false, false, NULL)
      else Judged(d, d.getDev(g, next), next + 1 < d.maxDev[g])
  }

  /** `dev_stor_type`: the first group from `g` on that has the cookie, or ENUM_MAX. */
  function GroupOf(d: Devices, c: Cookie, g: nat): (k: nat)
    requires |d.maxDev| == ENUM_MAX && g <= ENUM_MAX
    ensures g <= k <= ENUM_MAX
    ensures k < ENUM_MAX ==> d.Has(k, c)
    ensures forall h :: g <= h < k ==> !d.Has(h, c)
    decreases ENUM_MAX - g
  {
    if g == ENUM_MAX || d.Has(g, c) then g else GroupOf(d, c, g + 1)
  }

  datatype Enumerated = Enumerated(found: bool, cookie: Cookie, flags: Flags)

  /** `dev_enum_stor` */
  function EnumStorSpec(d: Devices, f: Flags, g: nat, c: Cookie): (r: Enumerated)
    requires |d.maxDev| == ENUM_MAX && f.Valid() && g < ENUM_MAX
    ensures r.flags.Valid()
  {
    if c == NULL then
      var got := StorGetSpec(d, g, true, c);
      Enumerated(got.found, got.cookie, Flags(f.started[g := true], f.ended[g := !got.more]))
    else if GroupOf(d, c, 0) == g then
      if f.ended[g] then Enumerated(false, c, f)
      else
        var got := StorGetSpec(d, g, false, c);
        Enumerated(got.found, got.cookie, Flags(f.started, f.ended[g := !got.more]))
    else if f.ended[g] then Enumerated(false, c, f)
    else if !f.started[g] then
      var got := StorGetSpec(d, g, true, c);
      Enumerated(got.found, got.cookie, Flags(f.started[g := true], f.ended[g := !got.more]))
    else Enumerated(false, c, Flags(f.started, f.ended[g := true]))
  }

  /** `dev_enum_storage` from group `g` on */
  function EnumStorageSpec(d: Devices, f: Flags, g: nat, c: Cookie): (r: Enumerated)
    requires |d.maxDev| == ENUM_MAX && f.Valid() && g <= ENUM_MAX
    ensures r.flags.Valid()
    decreases ENUM_MAX - g
  {
    if g == ENUM_MAX then Enumerated(false, c, f)
    else
      var r := EnumStorSpec(d, f, g, c);
      if r.found then r else EnumStorageSpec(d, r.flags, g + 1, r.cookie)
  }

  const RESET := Flags([false, false, false, false, false], [false, false, false, false, false])

  datatype Answer = Answer(cookie: Cookie, flags: Flags)

  /** `API_dev_enum` */
  function DevEnumSpec(d: Devices, f: Flags, c: Cookie): (r: Answer)
    requires |d.maxDev| == ENUM_MAX && f.Valid()
    ensures r.flags.Valid()
  {
    if c == NULL && d.net != NULL then Answer(d.net, RESET)
    else
      var r := EnumStorageSpec(d, if c == NULL then RESET else f, 0, c);
      Answer(if r.found then r.cookie else NULL, r.flags)
  }

  predicate StorIsValidSpec(d: Devices, g: nat, c: Cookie)
    requires g < |d.maxDev|
  {
    d.Has(g, c) && d.active(c)
  }

  /** `dev_open_stor`: 0 if the cookie stands for an active storage device. */
  function OpenStorSpec(d: Devices, c: Cookie): nat
    requires |d.maxDev| == ENUM_MAX
  {
    var g := GroupOf(d, c, 0);
    if g == ENUM_MAX then API_ENODEV else if StorIsValidSpec(d, g, c) then 0 else API_ENODEV
  }

  // ---------------------------------------------------------------------------------
  // The code

  class DeviceInfo {
    var cookie: Cookie
    var kind: nat
    var blockCount: nat
    var blockSize: nat

    constructor ()
      ensures cookie == NULL
    {
      cookie, kind, blockCount, blockSize := NULL, 0, 0, 0;
    }

    /** The record reports the active device that its cookie names, which is of group `g`. */
    ghost predicate Describes(d: Devices, g: nat)
      reads this
    {
      && g < ENUM_MAX && (exists i :: d.getDev(g, i) == cookie) && cookie != NULL && d.active(cookie)
      && kind == d.groupType(g) && blockCount == d.lba(cookie) && blockSize == d.blksz(cookie)
    }
  }

  class Storage {
    const d: Devices
    const started: array<bool>
    const ended: array<bool>

    ghost predicate Valid()
      reads this, started, ended
    {
      |d.maxDev| == ENUM_MAX && started.Length == ended.Length == ENUM_MAX && started != ended
    }

    ghost function AsFlags(): Flags
      reads this, started, ended
    {
      Flags(started[..], ended[..])
    }

    constructor (d: Devices)
      requires |d.maxDev| == ENUM_MAX
      ensures Valid() && this.d == d && AsFlags() == RESET && fresh(started) && fresh(ended)
    {
      this.d := d;
      started := new bool[ENUM_MAX](_ => false);
      ended := new bool[ENUM_MAX](_ => false);
    }

    /** `dev_stor_get` */
    method StorGet(g: nat, first: bool, di: DeviceInfo) returns (found: bool, more: bool)
      requires Valid() && g < ENUM_MAX
      modifies di
      ensures Got(found, more, di.cookie) == StorGetSpec(d, g, first, old(di.cookie))
      ensures found ==> di.Describes(d, g)
    {
      found, more := false, false;
      if first {
        di.cookie := d.getDev(g, 0);
        if di.cookie == NULL {
          return false, false;
        }
        found := true;
      } else {
        var i := 0;
        while i < d.maxDev[g]
          invariant 0 <= i <= d.maxDev[g]
          invariant IndexOf(d, g, di.cookie, 0) == IndexOf(d, g, di.cookie, i)
          invariant di.cookie == old(di.cookie) && !found && !more
        {
          if di.cookie == d.getDev(g, i) {
            i := i + 1;
            if i >= d.maxDev[g] {
              di.cookie := NULL;
              break;
            }
            di.cookie := d.getDev(g, i);
            if di.cookie == NULL {
              return false, false;
            }
            found := true;
            if i + 1 < d.maxDev[g] {
              more := true;
            }
            break;
          }
          i := i + 1;
        }
      }
      if found {
        di.kind := d.groupType(g);
        if !d.active(di.cookie) {
          found := false;
        } else {
          di.blockCount := d.lba(di.cookie);
          di.blockSize := d.blksz(di.cookie);
        }
      } else {
        di.cookie := NULL;
      }
    }

    /** `dev_stor_type` */
    method StorType(c: Cookie) returns (g: nat)
      requires Valid()
      ensures g == GroupOf(d, c, 0)
    {
      for i := 0 to ENUM_MAX
        invariant GroupOf(d, c, 0) == GroupOf(d, c, i)
      {
        for j := 0 to d.maxDev[i]
          invariant forall k :: 0 <= k < j ==> d.getDev(i, k) != c
        {
          if c == d.getDev(i, j) {
            return i;
          }
        }
      }
      return ENUM_MAX;
    }

    /** `dev_enum_stor` */
    method EnumStor(g: nat, di: DeviceInfo) returns (found: bool)
      requires Valid() && g < ENUM_MAX
      modifies di, started, ended
      ensures Enumerated(found, di.cookie, AsFlags()) == EnumStorSpec(d, old(AsFlags()), g, old(di.cookie))
      ensures found ==> di.Describes(d, g)
    {
      hide GroupOf, StorGetSpec;
      found := false;
      var more := false;
      if di.cookie == NULL {
        found, more := StorGet(g, true, di);
        started[g] := true;
      } else {
        var own := StorType(di.cookie);
        if own == g {
          if ended[g] {
            return false;
          }
          found, more := StorGet(g, false, di);
        } else {
          if ended[g] {
            return false;
          }
          if !started[g] {
            started[g] := true;
            found, more := StorGet(g, true, di);
          }
        }
      }
      ended[g] := !more;
    }

    /** `dev_enum_reset` */
    method EnumReset()
      requires Valid()
      modifies started, ended
      ensures AsFlags() == RESET
    {
      for i := 0 to ENUM_MAX
        invariant forall k :: 0 <= k < i ==> !started[k] && !ended[k]
      {
        started[i] := false;
        ended[i] := false;
      }
    }

    /** `dev_enum_storage` */
    method EnumStorage(di: DeviceInfo) returns (found: bool)
      requires Valid()
      modifies di, started, ended
      ensures Enumerated(found, di.cookie, AsFlags()) == EnumStorageSpec(d, old(AsFlags()), 0, old(di.cookie))
      ensures found ==> exists g :: di.Describes(d, g)
    {
      hide EnumStorSpec;
      for i := 0 to ENUM_MAX
        invariant AsFlags().Valid()
        invariant EnumStorageSpec(d, old(AsFlags()), 0, old(di.cookie))
               == EnumStorageSpec(d, AsFlags(), i, di.cookie)
      {
        found := EnumStor(i, di);
        if found {
          return true;
        }
      }
      return false;
    }

    /** `API_dev_enum`: the cookie says which device comes next, and the record describes it. */
    method DevEnum(di: DeviceInfo?) returns (err: nat)
      requires Valid()
      modifies di, started, ended
      ensures di == null ==> err == API_EINVAL && AsFlags() == old(AsFlags())
      ensures di != null ==>
                && err == 0
                && Answer(di.cookie, AsFlags()) == DevEnumSpec(d, old(AsFlags()), old(di.cookie))
                && (di.cookie != NULL && !(old(di.cookie) == NULL && d.net != NULL) ==> exists g :: di.Describes(d, g))
    {
      hide EnumStorageSpec;
      if di == null {
        return API_EINVAL;
      }
      if di.cookie == NULL {
        EnumReset();
        di.cookie := d.net;
        if di.cookie != NULL {
          return 0;
        }
      }
      var found := EnumStorage(di);
      if !found {
        di.cookie := NULL;
      }
      return 0;
    }

    /** `dev_stor_is_valid` */
    method StorIsValid(g: nat, c: Cookie) returns (valid: bool)
      requires Valid() && g < ENUM_MAX
      ensures valid == StorIsValidSpec(d, g, c)
    {
      for i := 0 to d.maxDev[g]
        invariant forall k :: 0 <= k < i ==> !(c == d.getDev(g, k) && d.active(c))
      {
        if c == d.getDev(g, i) && d.active(c) {
          return true;
        }
      }
      return false;
    }

    /** `dev_open_stor` */
    method OpenStor(c: Cookie) returns (err: nat)
      requires Valid()
      ensures err == OpenStorSpec(d, c)
    {
      hide GroupOf, StorIsValidSpec;
      var g := StorType(c);
      if g == ENUM_MAX {
        return API_ENODEV;
      }
      var valid := StorIsValid(g, c);
      return if valid then 0 else API_ENODEV;
    }
  }
}
