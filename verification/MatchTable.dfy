/** One match table of a portal: 256 hash lists of MEs plus one list for MEs
    with ignore bits, and the "exhausted" bits that let a match skip lists.
    The point of this module is that the indexed search finds exactly what a
    plain search through every list would find. */
module MatchTable {
  import opened MatchEntry
  import opened Options

  const HASH_SIZE: nat := 256
  const HASH_IGNORE: nat := 256
  const NLISTS: nat := 257

  /** How a portal matches: fixed by the first ME attached to it. */
  datatype Kind = Unset | Unique | Wildcard

  /** `exhausted[p]` is the bit of list `p`; the source keeps them in words. */
  datatype Table = Table(mhash: seq<seq<Me>>, exhausted: seq<bool>, enabled: bool)

  /** The machine: number of CPU partitions and the two hash functions. */
  datatype Config = Config(ncpts: nat, cptOfNid: nat -> nat, hashUnique: (ProcessId, bv64) -> nat)

  ghost predicate ValidConfig(cfg: Config) {
    && cfg.ncpts > 0
    && (forall nid: nat :: cfg.cptOfNid(nid) < cfg.ncpts)
    && (forall id, bits :: cfg.hashUnique(id, bits) < HASH_SIZE)
  }

  function WildcardPos(mbits: bv64): (p: nat)
    ensures p < HASH_SIZE
  {
    (mbits & 0xff) as nat
  }

  /** `lnet_mt_match_head`. */
  function MatchHead(cfg: Config, kind: Kind, id: ProcessId, mbits: bv64): nat {
    if kind.Wildcard? then WildcardPos(mbits) else cfg.hashUnique(id, mbits)
  }

  predicate IsUniqueCriteria(crit: Criteria) {
    crit.ignore == 0 && crit.id.nid != NID_ANY && crit.id.pid != PID_ANY
  }

  /** The list `LNetMEAttach` puts an ME on. */
  function AttachPos(cfg: Config, kind: Kind, crit: Criteria): nat {
    if crit.ignore != 0 then HASH_IGNORE else MatchHead(cfg, kind, crit.id, crit.mbits)
  }

  predicate Placed(cfg: Config, kind: Kind, cpt: nat, pos: nat, me: Me) {
    && !kind.Unset?
    && (kind.Unique? <==> IsUniqueCriteria(me.crit))
    && pos == AttachPos(cfg, kind, me.crit)
    && (kind.Unique? ==> cfg.cptOfNid(me.crit.id.nid) == cpt)
    && (me.md.Some? ==> WellFormed(me.md.value))
  }

  /** Every MD on this list is exhausted. */
  predicate Spent(list: seq<Me>) {
    forall k :: 0 <= k < |list| && list[k].md.Some? ==> Exhausted(list[k].md.value)
  }

  predicate AllSpent(t: Table) {
    forall p :: 0 <= p < |t.mhash| ==> Spent(t.mhash[p])
  }

  predicate AllSet(bits: seq<bool>) {
    forall p :: 0 <= p < |bits| ==> bits[p]
  }

  /** A set bit means that every MD on the list is exhausted. */
  predicate Truthful(t: Table, bits: seq<bool>)
    requires |t.mhash| == NLISTS && |bits| == NLISTS
  {
    forall p :: 0 <= p < NLISTS && bits[p] ==> Spent(t.mhash[p])
  }

  /** Bits set before are still set. */
  predicate Grown(bits: seq<bool>, bits': seq<bool>)
    requires |bits| == |bits'| == NLISTS
  {
    forall p :: 0 <= p < NLISTS && bits[p] ==> bits'[p]
  }

  predicate AllPlaced(cfg: Config, kind: Kind, cpt: nat, t: Table)
    requires |t.mhash| == NLISTS
  {
    forall p, k :: 0 <= p < NLISTS && 0 <= k < |t.mhash[p]| ==> Placed(cfg, kind, cpt, p, t.mhash[p][k])
  }

  ghost predicate ValidTable(cfg: Config, kind: Kind, cpt: nat, t: Table) {
    && |t.mhash| == NLISTS
    && |t.exhausted| == NLISTS
    && AllPlaced(cfg, kind, cpt, t)
    && (kind.Wildcard? ==> Truthful(t, t.exhausted))
    && (!t.enabled ==> AllSet(t.exhausted))
  }

  predicate NoMatchOn(list: seq<Me>, info: Info) {
    forall k :: 0 <= k < |list| ==> !LiveMatch(list[k], info)
  }

  predicate NoMatchIn(t: Table, info: Info) {
    forall p :: 0 <= p < |t.mhash| ==> NoMatchOn(t.mhash[p], info)
  }

  /** Outcome of walking one list: the first ME whose MD takes the request
      (delivering or dropping it), or none, and then whether all were spent. */
  datatype Scan = Hit(k: nat) | Miss(spent: bool)

  function ScanFrom(list: seq<Me>, info: Info, k: nat, spent: bool): (r: Scan)
    requires k <= |list|
    ensures r.Hit? ==> k <= r.k < |list| && LiveMatch(list[r.k], info) && NoMatchOn(list[k..r.k], info)
    ensures r.Miss? ==> NoMatchOn(list[k..], info) && (r.spent <==> spent && Spent(list[k..]))
    decreases |list| - k
  {
    if k == |list| then Miss(spent)
    else if list[k].md.None? then ScanStep(list, info, k); ScanFrom(list, info, k + 1, spent)
    else
      var t := TryMatch(list[k].crit, list[k].md.value, info);
      if !t.TryNone? then Hit(k)
      else ScanStep(list, info, k); ScanFrom(list, info, k + 1, spent && t.exhausted)
  }

  lemma ScanStep(list: seq<Me>, info: Info, k: nat)
    requires k < |list|
    ensures !LiveMatch(list[k], info) ==>
              && (NoMatchOn(list[k..], info) <==> NoMatchOn(list[k + 1..], info))
              && (forall j :: k + 1 <= j <= |list| ==>
                    NoMatchOn(list[k + 1..j], info) ==> NoMatchOn(list[k..j], info))
    ensures Spent(list[k..]) <==> (list[k].md.Some? ==> Exhausted(list[k].md.value)) && Spent(list[k + 1..])
  {
  }

  /** Where a match was found, or that there is none, with the table's bits as
      they are afterwards. `Nowhere.exhausted` is LNET_MATCHMD_EXHAUSTED. */
  datatype Found = At(pos: nat, k: nat) | Nowhere(exhausted: bool, bits: seq<bool>)

  /** One pass of `lnet_mt_match_md` over the list `pos`. */
  function Pass(kind: Kind, t: Table, bits: seq<bool>, pos: nat, info: Info): (r: Found)
    requires pos < |t.mhash| && pos < |bits|
    ensures r.At? ==> r.pos == pos && r.k < |t.mhash[pos]| && LiveMatch(t.mhash[pos][r.k], info)
    ensures r.Nowhere? ==> |r.bits| == |bits|
  {
    match ScanFrom(t.mhash[pos], info, 0, kind.Wildcard?)
    case Hit(k) => At(pos, k)
    case Miss(spent) =>
      var bits' := if spent then bits[pos := true] else bits;
      Nowhere(spent && AllSet(bits'), bits')
  }

  /** `lnet_mt_match_md`: ignore-bits MEs first, then the request's own list,
      unless the bits say that nothing is left anywhere. */
  function Search(cfg: Config, kind: Kind, t: Table, info: Info): (r: Found)
    requires |t.mhash| == NLISTS && |t.exhausted| == NLISTS
    requires ValidConfig(cfg)
    ensures r.At? ==> r.pos < NLISTS && r.k < |t.mhash[r.pos]| && LiveMatch(t.mhash[r.pos][r.k], info)
    ensures r.Nowhere? ==> |r.bits| == NLISTS
  {
    var own := MatchHead(cfg, kind, info.id, info.mbits);
    if t.mhash[HASH_IGNORE] == [] then Pass(kind, t, t.exhausted, own, info)
    else
      var first := Pass(kind, t, t.exhausted, HASH_IGNORE, info);
      if first.Nowhere? && !first.exhausted then Pass(kind, t, first.bits, own, info) else first
  }

  /** The plain search: every list, the ignore-bits list first. */
  function PlainFrom(t: Table, info: Info, p: nat): Option<(nat, nat)>
    requires |t.mhash| == NLISTS && p <= HASH_SIZE
    decreases HASH_SIZE - p
  {
    if p == HASH_SIZE then None
    else
      var s := ScanFrom(t.mhash[p], info, 0, false);
      if s.Hit? then Some((p, s.k)) else PlainFrom(t, info, p + 1)
  }

  function PlainSearch(t: Table, info: Info): Option<(nat, nat)>
    requires |t.mhash| == NLISTS
  {
    var s := ScanFrom(t.mhash[HASH_IGNORE], info, 0, false);
    if s.Hit? then Some((HASH_IGNORE, s.k)) else PlainFrom(t, info, 0)
  }

  /** Only its own list and the ignore-bits list can hold a match for a request. */
  lemma OnlyOwnList(cfg: Config, kind: Kind, cpt: nat, t: Table, info: Info, p: nat)
    requires ValidConfig(cfg) && ValidTable(cfg, kind, cpt, t)
    requires p < HASH_SIZE && p != MatchHead(cfg, kind, info.id, info.mbits)
    ensures NoMatchOn(t.mhash[p], info)
  {
    forall k | 0 <= k < |t.mhash[p]| ensures !LiveMatch(t.mhash[p][k], info) {
      var me := t.mhash[p][k];
      assert Placed(cfg, kind, cpt, p, me);
      if LiveMatch(me, info) {
        ExactBits(me.crit, info.mbits);
      }
    }
  }

  /** On a portal with unique matching, the table chosen by the sender's NID is
      the only one that can hold a match. */
  lemma OnlyOwnTable(cfg: Config, cpt: nat, t: Table, info: Info)
    requires ValidConfig(cfg) && ValidTable(cfg, Unique, cpt, t)
    requires cfg.cptOfNid(info.id.nid) != cpt
    ensures NoMatchIn(t, info)
  {
  }

  lemma SpentNoMatch(list: seq<Me>, info: Info)
    requires Spent(list)
    ensures NoMatchOn(list, info)
  {
  }

  /** What is known after looking at the lists `seen`, starting from `bits`. */
  ghost predicate Sound(kind: Kind, t: Table, bits: seq<bool>, seen: set<nat>, info: Info, r: Found)
    requires |t.mhash| == NLISTS && |bits| == NLISTS
  {
    && (r.At? ==> r.pos < NLISTS && r.k < |t.mhash[r.pos]| && LiveMatch(t.mhash[r.pos][r.k], info))
    && (r.Nowhere? ==>
          && |r.bits| == NLISTS
          && (forall p :: p in seen && p < NLISTS ==> NoMatchOn(t.mhash[p], info))
          && Grown(bits, r.bits)
          && (kind.Wildcard? ==> Truthful(t, r.bits))
          && (r.exhausted ==> kind.Wildcard? && AllSet(r.bits) && AllSpent(t)))
  }

  /** What one pass establishes, starting from bits that tell the truth. */
  lemma PassSound(kind: Kind, t: Table, bits: seq<bool>, pos: nat, info: Info)
    requires |t.mhash| == NLISTS && |bits| == NLISTS && pos < NLISTS
    requires kind.Wildcard? ==> Truthful(t, bits)
    ensures Sound(kind, t, bits, {pos}, info, Pass(kind, t, bits, pos, info))
    ensures var r := Pass(kind, t, bits, pos, info);
            && (r.At? ==> r.pos == pos && ScanFrom(t.mhash[pos], info, 0, false) == Hit(r.k))
            && (r.Nowhere? ==> ScanFrom(t.mhash[pos], info, 0, false).Miss?)
  {
  }

  lemma {:induction false} PlainSkips(t: Table, info: Info, p: nat, own: nat)
    requires |t.mhash| == NLISTS && p <= own < HASH_SIZE
    requires forall q :: p <= q < own ==> NoMatchOn(t.mhash[q], info)
    ensures PlainFrom(t, info, p) == PlainFrom(t, info, own)
    decreases own - p
  {
    if p < own {
      ScanMisses(t.mhash[p], info);
      PlainSkips(t, info, p + 1, own);
    }
  }

  lemma {:induction false} PlainEnds(t: Table, info: Info, p: nat)
    requires |t.mhash| == NLISTS && p <= HASH_SIZE
    requires forall q :: p <= q < HASH_SIZE ==> NoMatchOn(t.mhash[q], info)
    ensures PlainFrom(t, info, p) == None
    decreases HASH_SIZE - p
  {
    if p < HASH_SIZE {
      ScanMisses(t.mhash[p], info);
      PlainEnds(t, info, p + 1);
    }
  }

  lemma ScanMisses(list: seq<Me>, info: Info)
    requires NoMatchOn(list, info)
    ensures ScanFrom(list, info, 0, false).Miss?
  {
  }

  /** The plain search sees past every list but the request's own. */
  lemma PlainIsOwn(cfg: Config, kind: Kind, cpt: nat, t: Table, info: Info)
    requires ValidConfig(cfg) && ValidTable(cfg, kind, cpt, t)
    ensures var own := MatchHead(cfg, kind, info.id, info.mbits);
            var s := ScanFrom(t.mhash[own], info, 0, false);
            PlainFrom(t, info, 0) == if s.Hit? then Some((own, s.k)) else None
  {
    var own := MatchHead(cfg, kind, info.id, info.mbits);
    forall q | 0 <= q < HASH_SIZE && q != own ensures NoMatchOn(t.mhash[q], info) {
      OnlyOwnList(cfg, kind, cpt, t, info, q);
    }
    PlainSkips(t, info, 0, own);
    PlainEnds(t, info, own + 1);
  }

  /** What the search establishes about the bits and about what it leaves out. */
  lemma SearchSound(cfg: Config, kind: Kind, t: Table, info: Info)
    requires ValidConfig(cfg) && |t.mhash| == NLISTS && |t.exhausted| == NLISTS
    requires kind.Wildcard? ==> Truthful(t, t.exhausted)
    ensures Sound(kind, t, t.exhausted, {HASH_IGNORE, MatchHead(cfg, kind, info.id, info.mbits)}, info,
                  Search(cfg, kind, t, info))
  {
    var own := MatchHead(cfg, kind, info.id, info.mbits);
    if t.mhash[HASH_IGNORE] == [] {
      PassSound(kind, t, t.exhausted, own, info);
    } else {
      PassSound(kind, t, t.exhausted, HASH_IGNORE, info);
      var first := Pass(kind, t, t.exhausted, HASH_IGNORE, info);
      if first.Nowhere? {
        if first.exhausted {
          SpentNoMatch(t.mhash[own], info);
        } else {
          PassSound(kind, t, first.bits, own, info);
          assert NoMatchOn(t.mhash[HASH_IGNORE], info);
        }
      }
    }
  }

  /** Missing on the two lists that count is missing on all of them. */
  lemma NoMatchAnywhere(cfg: Config, kind: Kind, cpt: nat, t: Table, info: Info)
    requires ValidConfig(cfg) && ValidTable(cfg, kind, cpt, t)
    requires NoMatchOn(t.mhash[HASH_IGNORE], info)
    requires NoMatchOn(t.mhash[MatchHead(cfg, kind, info.id, info.mbits)], info)
    ensures NoMatchIn(t, info)
  {
    forall p | 0 <= p < NLISTS ensures NoMatchOn(t.mhash[p], info) {
      if p < HASH_SIZE && p != MatchHead(cfg, kind, info.id, info.mbits) {
        OnlyOwnList(cfg, kind, cpt, t, info, p);
      }
    }
  }

  /** Match-table completeness: the search reports nothing only if no list of
      the table, skipped or not, holds an MD that could take the request; the
      bits stay truthful; and it reports the table exhausted only if every MD
      of the table is. */
  lemma SearchComplete(cfg: Config, kind: Kind, cpt: nat, t: Table, info: Info)
    requires ValidConfig(cfg) && ValidTable(cfg, kind, cpt, t)
    ensures var r := Search(cfg, kind, t, info);
            && (r.At? ==> r.pos < NLISTS && r.k < |t.mhash[r.pos]| && LiveMatch(t.mhash[r.pos][r.k], info))
            && (r.Nowhere? ==>
                  && NoMatchIn(t, info)
                  && ValidTable(cfg, kind, cpt, t.(exhausted := r.bits))
                  && (r.exhausted ==> kind.Wildcard? && AllSet(r.bits) && AllSpent(t)))
  {
    SearchSound(cfg, kind, t, info);
    var r := Search(cfg, kind, t, info);
    if r.Nowhere? {
      NoMatchAnywhere(cfg, kind, cpt, t, info);
      var t' := t.(exhausted := r.bits);
      assert AllPlaced(cfg, kind, cpt, t') && (kind.Wildcard? ==> Truthful(t', t'.exhausted));
    }
  }

  /** The indexed search agrees with the plain one: it finds the same ME of the
      same list, or nothing exactly when the plain search finds nothing. */
  lemma SearchIsPlain(cfg: Config, kind: Kind, cpt: nat, t: Table, info: Info)
    requires ValidConfig(cfg) && ValidTable(cfg, kind, cpt, t)
    ensures var r := Search(cfg, kind, t, info);
            PlainSearch(t, info) == if r.At? then Some((r.pos, r.k)) else None
  {
    hide ScanFrom, PlainFrom, NoMatchOn, Pass, LiveMatch, Truthful, Grown, AllSpent, AllPlaced;
    var own := MatchHead(cfg, kind, info.id, info.mbits);
    PlainIsOwn(cfg, kind, cpt, t, info);
    SearchSound(cfg, kind, t, info);
    var r := Search(cfg, kind, t, info);
    if r.Nowhere? {
      ScanMisses(t.mhash[own], info);
      ScanMisses(t.mhash[HASH_IGNORE], info);
    } else if t.mhash[HASH_IGNORE] == [] {
      PassSound(kind, t, t.exhausted, own, info);
    } else {
      PassSound(kind, t, t.exhausted, HASH_IGNORE, info);
      var first := Pass(kind, t, t.exhausted, HASH_IGNORE, info);
      if first.Nowhere? {
        PassSound(kind, t, first.bits, own, info);
      }
    }
  }
}
