/** Match entries (MEs) and the memory descriptors (MDs) attached to them, as
    far as matching an incoming request is concerned: when an MD is exhausted,
    when it accepts a request, and which bytes of it the request gets.

    Lengths and offsets are C `unsigned int`; the two places where the source
    adds or subtracts them are modelled modulo 2^32. */
module MatchEntry {
  import opened Options

  const NID_ANY: nat := 0xFFFF_FFFF_FFFF_FFFF
  const PID_ANY: nat := 0xFFFF_FFFF
  const THRESH_INF: int := -1
  const U32: nat := 0x1_0000_0000

  datatype ProcessId = ProcessId(nid: nat, pid: nat)

  datatype Op = Put | Get

  /** An incoming request: `struct lnet_match_info`. */
  datatype Info = Info(id: ProcessId, op: Op, mbits: bv64, rlength: nat, roffset: nat)

  /** What an ME asks of a request. */
  datatype Criteria = Criteria(id: ProcessId, mbits: bv64, ignore: bv64)

  datatype Md = Md(
    id: nat,
    opPut: bool, opGet: bool,
    manageRemote: bool, truncate: bool, autoUnlink: bool,
    maxSize: Option<nat>,
    length: nat, offset: nat,
    threshold: int)

  datatype Me = Me(id: nat, crit: Criteria, unlink: bool, md: Option<Md>)

  /** What `lnet_md_build` guarantees of a new MD and matching keeps. An MD with
      a maximum request size is shorter than 2^31 because the size is compared
      with a signed length. */
  predicate WellFormed(md: Md) {
    && md.length < U32
    && md.offset < U32
    && md.threshold >= THRESH_INF
    && (md.maxSize.Some? ==> md.maxSize.value <= md.length < 0x8000_0000)
    && (!md.manageRemote ==> md.offset <= md.length)
  }

  function Add32(a: nat, b: nat): nat {
    (a + b) % U32
  }

  function Sub32(a: nat, b: nat): nat {
    (a - b) % U32
  }

  predicate Exhausted(md: Md) {
    || md.threshold == 0
    || (md.maxSize.Some? && Add32(md.offset, md.maxSize.value) > md.length)
  }

  predicate BitsMatch(crit: Criteria, mbits: bv64) {
    (crit.mbits ^ mbits) & !crit.ignore == 0
  }

  /** The request satisfies the ME and the MD allows the operation. */
  predicate Accepts(crit: Criteria, md: Md, info: Info) {
    && (if info.op.Put? then md.opPut else md.opGet)
    && (crit.id.nid == NID_ANY || crit.id.nid == info.id.nid)
    && (crit.id.pid == PID_ANY || crit.id.pid == info.id.pid)
    && BitsMatch(crit, info.mbits)
  }

  /** An attached MD that can still take this request. */
  predicate LiveMatch(me: Me, info: Info) {
    me.md.Some? && !Exhausted(me.md.value) && Accepts(me.crit, me.md.value, info)
  }

  /** Result of `lnet_try_match_md`. */
  datatype Try =
    | TryNone(exhausted: bool)
    | TryDrop
    | TryOk(offset: nat, mlength: nat, md: Md, exhausted: bool)

  function Start(md: Md, info: Info): nat {
    if md.manageRemote then info.roffset else md.offset
  }

  /** Bytes the MD allows a request that starts at `Start`. */
  function Room(md: Md, info: Info): nat {
    if md.maxSize.Some? then md.maxSize.value else Sub32(md.length, Start(md, info))
  }

  function TryMatch(crit: Criteria, md: Md, info: Info): Try {
    if Exhausted(md) then TryNone(true)
    else if !Accepts(crit, md, info) then TryNone(false)
    else if info.rlength > Room(md, info) && !md.truncate then TryDrop
    else
      var mlength := if info.rlength <= Room(md, info) then info.rlength else Room(md, info);
      var offset := Start(md, info);
      var threshold := if md.threshold != THRESH_INF then md.threshold - 1 else md.threshold;
      var md' := md.(offset := Add32(offset, mlength), threshold := threshold);
      TryOk(offset, mlength, md', Exhausted(md'))
  }

  /** With no ignore bits only the very same match bits satisfy an ME. */
  lemma ExactBits(crit: Criteria, mbits: bv64)
    requires crit.ignore == 0
    ensures BitsMatch(crit, mbits) <==> crit.mbits == mbits
  {
  }

  /** A match only ever changes the offset and the threshold. */
  lemma TryMatchKeeps(crit: Criteria, md: Md, info: Info)
    requires WellFormed(md)
    ensures var r := TryMatch(crit, md, info);
            r.TryOk? ==> WellFormed(r.md) && r.md == md.(offset := r.md.offset, threshold := r.md.threshold)
  {
    if md.maxSize.Some? {
      AddBelow(md.offset, md.maxSize.value);
    }
    hide BitsMatch, Accepts;
    if !Exhausted(md) && !md.manageRemote {
      RoomInside(md, info);
    }
  }

  lemma AddBelow(a: nat, b: nat)
    ensures Add32(a, b) < U32 && (a + b < U32 ==> Add32(a, b) == a + b)
  {
  }

  /** With a locally managed offset there is no wrap-around. */
  lemma RoomInside(md: Md, info: Info)
    requires WellFormed(md) && !Exhausted(md) && !md.manageRemote
    ensures md.offset + Room(md, info) <= md.length
    ensures forall n: nat :: n <= Room(md, info) ==> Add32(md.offset, n) == md.offset + n
  {
  }

  /** The requests one MD accepts, in order: where each starts and how long it is. */
  datatype Range = Range(offset: nat, length: nat, asked: nat)

  function Accepted(crit: Criteria, md: Md, infos: seq<Info>): seq<Range>
    decreases infos
  {
    if infos == [] then []
    else
      var r := TryMatch(crit, md, infos[0]);
      if r.TryOk? then
        [Range(r.offset, r.mlength, infos[0].rlength)] + Accepted(crit, r.md, infos[1..])
      else
        Accepted(crit, md, infos[1..])
  }

  /** The ranges start at `from`, each begins where the one before it ended, and
      the last one ends at or before `limit`. */
  predicate Tiles(rs: seq<Range>, from: nat, limit: nat) {
    && (forall k :: 0 <= k < |rs| ==> rs[k].offset == (if k == 0 then from else rs[k - 1].offset + rs[k - 1].length))
    && (forall k :: 0 <= k < |rs| ==> rs[k].offset + rs[k].length <= limit)
  }

  lemma TilesCons(r: Range, rs: seq<Range>, limit: nat)
    requires Tiles(rs, r.offset + r.length, limit)
    requires r.offset + r.length <= limit
    ensures Tiles([r] + rs, r.offset, limit)
  {
  }

  /** One accepted request, without the wrap-around. */
  lemma AcceptedOne(crit: Criteria, md: Md, info: Info)
    requires WellFormed(md) && !md.manageRemote
    ensures var r := TryMatch(crit, md, info);
            r.TryOk? ==>
              && r.offset == md.offset
              && r.md == md.(offset := md.offset + r.mlength, threshold := r.md.threshold)
              && md.offset + r.mlength <= md.length
              && r.mlength <= info.rlength
              && (r.mlength < info.rlength ==> md.truncate)
              && (md.maxSize.Some? ==> r.mlength <= md.maxSize.value)
              && (md.threshold != THRESH_INF ==> md.threshold > 0 && r.md.threshold == md.threshold - 1)
              && (md.threshold == THRESH_INF ==> r.md.threshold == THRESH_INF)
  {
  }

  /** Each range is no longer than what was asked for, and shorter only if the
      MD truncates; none is longer than the maximum size. */
  predicate WithinRequests(rs: seq<Range>, md: Md) {
    forall k :: 0 <= k < |rs| ==>
      && rs[k].length <= rs[k].asked
      && (rs[k].length < rs[k].asked ==> md.truncate)
      && (md.maxSize.Some? ==> rs[k].length <= md.maxSize.value)
  }

  /** Locally managed offsets: whatever requests come, the accepted ones take
      consecutive pieces of the MD, starting at its offset and ending within it. */
  lemma {:induction false} AcceptedTile(crit: Criteria, md: Md, infos: seq<Info>)
    requires WellFormed(md) && !md.manageRemote
    ensures Tiles(Accepted(crit, md, infos), md.offset, md.length)
    decreases infos
  {
    if infos != [] {
      var r := TryMatch(crit, md, infos[0]);
      if r.TryOk? {
        AcceptedOne(crit, md, infos[0]);
        var rest := Accepted(crit, r.md, infos[1..]);
        assert Tiles(rest, md.offset + r.mlength, md.length) by {
          AcceptedTile(crit, r.md, infos[1..]);
        }
        TilesCons(Range(r.offset, r.mlength, infos[0].rlength), rest, md.length);
      } else {
        AcceptedTile(crit, md, infos[1..]);
      }
    }
  }

  /** No accepted piece is longer than asked for or than the maximum size, and
      there are no more of them than the threshold allows. */
  lemma {:induction false} AcceptedWithinLimits(crit: Criteria, md: Md, infos: seq<Info>)
    requires WellFormed(md) && !md.manageRemote
    ensures WithinRequests(Accepted(crit, md, infos), md)
    ensures md.threshold != THRESH_INF ==> |Accepted(crit, md, infos)| <= md.threshold
    decreases infos
  {
    if infos != [] {
      var r := TryMatch(crit, md, infos[0]);
      if r.TryOk? {
        AcceptedOne(crit, md, infos[0]);
        AcceptedWithinLimits(crit, r.md, infos[1..]);
      } else {
        AcceptedWithinLimits(crit, md, infos[1..]);
      }
    }
  }

  /** Any two accepted ranges are disjoint, the earlier one lying below. */
  lemma {:induction false} TilesDisjoint(rs: seq<Range>, from: nat, limit: nat, i: nat, j: nat)
    requires Tiles(rs, from, limit) && i < j < |rs|
    ensures rs[i].offset + rs[i].length <= rs[j].offset
  {
    if i + 1 < j {
      TilesDisjoint(rs, from, limit, i, j - 1);
    }
  }

  /** Once exhausted, an MD never takes another request. */
  lemma {:induction false} ExhaustedAcceptsNothing(crit: Criteria, md: Md, infos: seq<Info>)
    requires Exhausted(md)
    ensures Accepted(crit, md, infos) == []
  {
    if infos != [] {
      ExhaustedAcceptsNothing(crit, md, infos[1..]);
    }
  }
}
