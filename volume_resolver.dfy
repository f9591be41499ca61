/**
 * `get_sys_vol_uuid`: find, in the parsed `diskutil list -plist` listing, the APFS volume
 * whose mounted snapshot is the root file system, and return its UUID.
 */
module VolumeResolver {
  import opened Common

  /** One entry of a volume's "MountedSnapshots" array. */
  datatype Snapshot = Snapshot(snapshotMountPoint: Option<string>)

  /** One entry of a disk's "APFSVolumes" array. */
  datatype Volume = Volume(volumeUuid: Option<string>, mountedSnapshots: Option<seq<Snapshot>>)

  /** One entry of "AllDisksAndPartitions". */
  datatype Disk = Disk(apfsVolumes: Option<seq<Volume>>)

  /** The top-level dictionary of the listing. */
  datatype DiskList = DiskList(allDisksAndPartitions: Option<seq<Disk>>)

  /** A snapshot that has a "SnapshotMountPoint" and it is exactly "/". */
  predicate IsRootSnapshot(s: Snapshot) {
    s.snapshotMountPoint == Some("/")
  }

  /** A volume with a "MountedSnapshots" array holding a root snapshot. */
  predicate HasRootSnapshot(v: Volume) {
    v.mountedSnapshots.Some? &&
    exists k :: 0 <= k < |v.mountedSnapshots.value| && IsRootSnapshot(v.mountedSnapshots.value[k])
  }

  /** A disk's APFS volumes; a disk without "APFSVolumes" contributes none. */
  function VolumesOf(d: Disk): seq<Volume> {
    if d.apfsVolumes.Some? then d.apfsVolumes.value else []
  }

  /** The first volume, in order, that has a root snapshot. */
  function FirstRootVolume(vols: seq<Volume>): (r: Option<Volume>)
    ensures r.None? <==> forall k :: 0 <= k < |vols| ==> !HasRootSnapshot(vols[k])
    ensures r.Some? ==>
      exists k :: 0 <= k < |vols| && vols[k] == r.value && HasRootSnapshot(vols[k]) &&
                  forall m :: 0 <= m < k ==> !HasRootSnapshot(vols[m])
  {
    if vols == [] then None
    else if HasRootSnapshot(vols[0]) then Some(vols[0])
    else
      var r := FirstRootVolume(vols[1..]);
      assert forall k :: 1 <= k < |vols| ==> vols[k] == vols[1..][k - 1];
      r
  }

  /** The first volume, disk by disk and then volume by volume, that has a root snapshot. */
  function FirstRootVolumeOnDisks(disks: seq<Disk>): (r: Option<Volume>)
    ensures r.None? <==>
      forall d, k :: 0 <= d < |disks| && 0 <= k < |VolumesOf(disks[d])| ==> !HasRootSnapshot(VolumesOf(disks[d])[k])
  {
    if disks == [] then None
    else
      match FirstRootVolume(VolumesOf(disks[0]))
      case Some(v) => Some(v)
      case None =>
        var r := FirstRootVolumeOnDisks(disks[1..]);
        assert forall d :: 1 <= d < |disks| ==> disks[d] == disks[1..][d - 1];
        r
  }

  /** What `get_sys_vol_uuid` returns or raises for a listing. */
  function ResolveRootVolume(info: DiskList): (r: Result<string>)
    ensures r.Failure? ==>
      r.error == MissingKey("AllDisksAndPartitions") || r.error == MissingKey("VolumeUUID") || r.error == NoRootVolume
    ensures r.Success? ==> info.allDisksAndPartitions.Some?
  {
    match info.allDisksAndPartitions
    case None => Failure(MissingKey("AllDisksAndPartitions"))
    case Some(disks) =>
      match FirstRootVolumeOnDisks(disks)
      case None => Failure(NoRootVolume)
      case Some(v) =>
        if v.volumeUuid.Some? then Success(v.volumeUuid.value) else Failure(MissingKey("VolumeUUID"))
  }

  /**
   * The resolver's loops: disks, then volumes, then snapshots, skipping entries that lack the
   * key, returning at the first snapshot mounted on "/".
   */
  method GetSysVolUuid(info: DiskList) returns (r: Result<string>)
    ensures r == ResolveRootVolume(info)
  {
    if info.allDisksAndPartitions.None? {
      return Failure(MissingKey("AllDisksAndPartitions"));
    }
    var disks := info.allDisksAndPartitions.value;
    for d := 0 to |disks|
      invariant FirstRootVolumeOnDisks(disks[d..]) == FirstRootVolumeOnDisks(disks)
    {
      var disk := disks[d];
      DiskStep(disks, d);
      if disk.apfsVolumes.None? {
        continue;
      }
      var vols := disk.apfsVolumes.value;
      for v := 0 to |vols|
        invariant FirstRootVolume(vols[v..]) == FirstRootVolume(vols)
      {
        var vol := vols[v];
        VolumeStep(vols, v);
        if vol.mountedSnapshots.None? {
          continue;
        }
        var snaps := vol.mountedSnapshots.value;
        for s := 0 to |snaps|
          invariant forall m :: 0 <= m < s ==> !IsRootSnapshot(snaps[m])
        {
          var snap := snaps[s];
          if snap.snapshotMountPoint.Some? && snap.snapshotMountPoint.value == "/" {
            RootFoundAt(info, d, v, s);
            if vol.volumeUuid.None? {
              return Failure(MissingKey("VolumeUUID"));
            }
            return Success(vol.volumeUuid.value);
          }
        }
      }
      assert vols[|vols|..] == [];
    }
    assert disks[|disks|..] == [];
    return Failure(NoRootVolume);
  }

  /**
   * The loops meet a root snapshot at disk `d`, volume `v`, snapshot `s`, having passed over
   * every volume before it: the answer is that volume's UUID, or the missing-key error.
   */
  lemma RootFoundAt(info: DiskList, d: nat, v: nat, s: nat)
    requires info.allDisksAndPartitions.Some?
    requires var disks := info.allDisksAndPartitions.value;
      d < |disks| && disks[d].apfsVolumes.Some? &&
      v < |disks[d].apfsVolumes.value| && disks[d].apfsVolumes.value[v].mountedSnapshots.Some? &&
      s < |disks[d].apfsVolumes.value[v].mountedSnapshots.value| &&
      IsRootSnapshot(disks[d].apfsVolumes.value[v].mountedSnapshots.value[s]) &&
      FirstRootVolumeOnDisks(disks[d..]) == FirstRootVolumeOnDisks(disks) &&
      FirstRootVolume(disks[d].apfsVolumes.value[v..]) == FirstRootVolume(disks[d].apfsVolumes.value)
    ensures var vol := info.allDisksAndPartitions.value[d].apfsVolumes.value[v];
      ResolveRootVolume(info) ==
        if vol.volumeUuid.None? then Failure(MissingKey("VolumeUUID")) else Success(vol.volumeUuid.value)
  {
    var disks := info.allDisksAndPartitions.value;
    var vols := disks[d].apfsVolumes.value;
    assert HasRootSnapshot(vols[v]);
    VolumeStep(vols, v);
    DiskStep(disks, d);
    assert FirstRootVolumeOnDisks(disks) == Some(vols[v]);
  }

  /** One step of the volume loop: the volume at `v` answers, or the search moves past it. */
  lemma VolumeStep(vols: seq<Volume>, v: nat)
    requires v < |vols|
    ensures FirstRootVolume(vols[v..]) ==
      if HasRootSnapshot(vols[v]) then Some(vols[v]) else FirstRootVolume(vols[v + 1..])
  {
    assert vols[v..][0] == vols[v] && vols[v..][1..] == vols[v + 1..];
  }

  /** One step of the disk loop: the disk at `d` answers, or the search moves past it. */
  lemma DiskStep(disks: seq<Disk>, d: nat)
    requires d < |disks|
    ensures var f := FirstRootVolume(VolumesOf(disks[d]));
      FirstRootVolumeOnDisks(disks[d..]) == if f.Some? then f else FirstRootVolumeOnDisks(disks[d + 1..])
  {
    assert disks[d..][0] == disks[d] && disks[d..][1..] == disks[d + 1..];
  }

  /**
   * First match wins: if volume `k` of disk `d` has a root snapshot and no volume before it
   * (earlier disks, or earlier on the same disk) has one, the resolver answers with its UUID.
   */
  lemma {:induction false} FirstMatchWins(disks: seq<Disk>, d: nat, k: nat)
    requires d < |disks| && k < |VolumesOf(disks[d])| && HasRootSnapshot(VolumesOf(disks[d])[k])
    requires forall e, j :: 0 <= e < d && 0 <= j < |VolumesOf(disks[e])| ==> !HasRootSnapshot(VolumesOf(disks[e])[j])
    requires forall j :: 0 <= j < k ==> !HasRootSnapshot(VolumesOf(disks[d])[j])
    ensures FirstRootVolumeOnDisks(disks) == Some(VolumesOf(disks[d])[k])
    ensures var v := VolumesOf(disks[d])[k];
      ResolveRootVolume(DiskList(Some(disks))) ==
        if v.volumeUuid.Some? then Success(v.volumeUuid.value) else Failure(MissingKey("VolumeUUID"))
  {
    if d == 0 {
      FirstInVolumes(VolumesOf(disks[0]), k);
    } else {
      assert FirstRootVolume(VolumesOf(disks[0])) == None by {
        assert forall j :: 0 <= j < |VolumesOf(disks[0])| ==> !HasRootSnapshot(VolumesOf(disks[0])[j]);
      }
      var rest := disks[1..];
      assert rest[d - 1] == disks[d];
      forall e, j | 0 <= e < d - 1 && 0 <= j < |VolumesOf(rest[e])|
        ensures !HasRootSnapshot(VolumesOf(rest[e])[j])
      {
        assert rest[e] == disks[e + 1];
      }
      FirstMatchWins(rest, d - 1, k);
    }
  }

  /** Within one disk, the first volume with a root snapshot is the one found. */
  lemma {:induction false} FirstInVolumes(vols: seq<Volume>, k: nat)
    requires k < |vols| && HasRootSnapshot(vols[k])
    requires forall j :: 0 <= j < k ==> !HasRootSnapshot(vols[j])
    ensures FirstRootVolume(vols) == Some(vols[k])
  {
    if k > 0 {
      assert vols[1..][k - 1] == vols[k];
      FirstInVolumes(vols[1..], k - 1);
    }
  }

  /** With no snapshot mounted on "/" anywhere, the resolver fails rather than answering. */
  lemma NoRootMeansFailure(disks: seq<Disk>)
    requires forall d, k :: 0 <= d < |disks| && 0 <= k < |VolumesOf(disks[d])| ==> !HasRootSnapshot(VolumesOf(disks[d])[k])
    ensures ResolveRootVolume(DiskList(Some(disks))) == Failure(NoRootVolume)
  {
  }

  /** The resolver succeeds only with the UUID of a volume that has a root snapshot. */
  lemma SuccessHasRootSnapshot(info: DiskList, uuid: string)
    requires ResolveRootVolume(info) == Success(uuid)
    ensures info.allDisksAndPartitions.Some?
    ensures var disks := info.allDisksAndPartitions.value;
      exists d, k ::
        0 <= d < |disks| && 0 <= k < |VolumesOf(disks[d])| &&
        HasRootSnapshot(VolumesOf(disks[d])[k]) && VolumesOf(disks[d])[k].volumeUuid == Some(uuid)
  {
    var disks := info.allDisksAndPartitions.value;
    FoundOnSomeDisk(disks);
  }

  /** The volume found sits on one of the disks and has a root snapshot. */
  lemma {:induction false} FoundOnSomeDisk(disks: seq<Disk>)
    requires FirstRootVolumeOnDisks(disks).Some?
    ensures exists d, k ::
      0 <= d < |disks| && 0 <= k < |VolumesOf(disks[d])| &&
      VolumesOf(disks[d])[k] == FirstRootVolumeOnDisks(disks).value && HasRootSnapshot(VolumesOf(disks[d])[k])
  {
    var v := FirstRootVolumeOnDisks(disks).value;
    if FirstRootVolume(VolumesOf(disks[0])).Some? {
      var k :| 0 <= k < |VolumesOf(disks[0])| && VolumesOf(disks[0])[k] == v && HasRootSnapshot(VolumesOf(disks[0])[k]);
    } else {
      FoundOnSomeDisk(disks[1..]);
      var d, k :| 0 <= d < |disks[1..]| && 0 <= k < |VolumesOf(disks[1..][d])| &&
        VolumesOf(disks[1..][d])[k] == v && HasRootSnapshot(VolumesOf(disks[1..][d])[k]);
      assert disks[1..][d] == disks[d + 1];
    }
  }

  /** One disk, one APFS volume, one snapshot mounted on "/": the answer is that volume's UUID. */
  lemma SingleRootSnapshot(uuid: string)
    ensures ResolveRootVolume(DiskList(Some([Disk(Some([Volume(Some(uuid), Some([Snapshot(Some("/"))]))]))])))
      == Success(uuid)
  {
    var v := Volume(Some(uuid), Some([Snapshot(Some("/"))]));
    assert IsRootSnapshot(v.mountedSnapshots.value[0]);
  }
}
