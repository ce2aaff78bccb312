/** The receive filter of the impair driver: a 16-entry multicast CAM standing for an unbounded multicast list. */
module RxFilter {
  import opened Common

  datatype Mac = Mac(b0: byte, b1: byte, b2: byte, b3: byte, b4: byte, b5: byte)

  const CAM_SIZE := 16  // IMPAIR_MC_CAM_SIZE
  const BROADCAST := Mac(255, 255, 255, 255, 255, 255)

  /** The I/G bit of section 3.2.3 of IEEE 802.3: the low bit of the first octet. */
  predicate IsGroup(m: Mac): (group: bool)
    ensures m.b0 == m.b0 / 2 * 2 + if group then 1 else 0
  {
    m.b0 % 2 == 1
  }

  /** `struct rx_filter_state`; `cam` is the used part mc_cam[0..mc_cam_len). */
  datatype Filter = Filter(promisc: bool, allmulti: bool, primary: Mac, cam: seq<Mac>)

  /** What the filter state admits. */
  predicate Accepts(f: Filter, dst: Mac) {
    f.promisc || dst == BROADCAST ||
    if IsGroup(dst) then f.allmulti || dst in f.cam else dst == f.primary
  }

  /** What the network core asks of the device, from its flags, its address and its whole multicast list. */
  predicate Wanted(promisc: bool, allmulti: bool, devAddr: Mac, groups: seq<Mac>, dst: Mac) {
    promisc || dst == BROADCAST || (dst == devAddr && !IsGroup(dst)) || (IsGroup(dst) && (allmulti || dst in groups))
  }

  method RxAccept(f: Filter, dst: Mac) returns (ok: bool)
    ensures ok <==> Accepts(f, dst)
  {
    if f.promisc {
      return true;
    }
    if dst == BROADCAST {
      return true;
    }
    if IsGroup(dst) {
      if f.allmulti {
        return true;
      }
      for i := 0 to |f.cam|
        invariant dst !in f.cam[..i]
      {
        if dst == f.cam[i] {
          return true;
        }
      }
      return false;
    }
    return dst == f.primary;
  }

  /** The device side of the filter: `struct net_device` as the driver reads it, and the committed state. */
  class ImpairDev {
    var promisc: bool
    var allmulti: bool
    var devAddr: Mac
    var groups: seq<Mac>
    var filter: Filter

    constructor (promisc: bool, allmulti: bool, devAddr: Mac, groups: seq<Mac>)
      ensures InSync() && this.devAddr == devAddr && this.groups == groups
    {
      this.promisc, this.allmulti, this.devAddr, this.groups := promisc, allmulti, devAddr, groups;
      filter := Filter(false, false, devAddr, []);
      new;
      SetRxMode();
    }

    /** The CAM has been given up for "all multicast". */
    ghost predicate Overflown()
      reads this
    {
      !promisc && !allmulti && |groups| > CAM_SIZE
    }

    /**
     The committed state follows flags, address and list: the CAM is the list while it fits and is needed,
     and gives way to "all multicast" when it does not.
     */
    ghost predicate InSync()
      reads this
    {
      && filter.promisc == promisc && filter.primary == devAddr
      && (filter.allmulti <==> allmulti || Overflown())
      && (if promisc || allmulti then filter.cam == []
          else filter.cam == groups[..Min(|groups|, CAM_SIZE)])
    }

    method SetRxMode()
      modifies this`filter
      ensures InSync()
    {
      var newf := Filter(promisc, allmulti, devAddr, []);
      if !newf.promisc && !newf.allmulti {
        var i := 0;
        while i < |groups|
          invariant i <= |groups| && i <= CAM_SIZE
          invariant newf == Filter(promisc, allmulti, devAddr, groups[..i])
        {
          if |newf.cam| == CAM_SIZE {
            newf := newf.(allmulti := true);
            break;
          }
          newf := newf.(cam := newf.cam + [groups[i]]);
          i := i + 1;
        }
        assert groups[..|groups|] == groups;
      }
      filter := newf;
    }

    /** `prepared` is the outcome of `eth_prepare_mac_addr_change`, which only lets unicast addresses through. */
    method SetMacAddress(addr: Mac, prepared: bool) returns (ok: bool)
      requires InSync()
      modifies this`filter, this`devAddr
      ensures InSync()
      ensures ok <==> prepared
      ensures devAddr == if ok then addr else old(devAddr)
      ensures !ok ==> filter == old(filter)
    {
      if !prepared {
        return false;
      }
      filter := filter.(primary := addr);
      devAddr := addr;
      ok := true;
    }
  }

  /** Nothing wanted is lost; nothing else gets in unless the CAM overflowed, and then only group addresses do. */
  lemma CamAgreesWithList(d: ImpairDev, dst: Mac)
    requires d.InSync()
    ensures Wanted(d.promisc, d.allmulti, d.devAddr, d.groups, dst) ==> Accepts(d.filter, dst)
    ensures d.promisc || d.allmulti || |d.groups| <= 16 ==>
      (Accepts(d.filter, dst) <==> Wanted(d.promisc, d.allmulti, d.devAddr, d.groups, dst))
    ensures Accepts(d.filter, dst) && !Wanted(d.promisc, d.allmulti, d.devAddr, d.groups, dst) <==>
      d.Overflown() && IsGroup(dst) && dst != BROADCAST && dst !in d.groups
  {
    if !d.promisc && !d.allmulti && |d.groups| <= CAM_SIZE {
      assert d.filter.cam == d.groups;
    }
  }
}
