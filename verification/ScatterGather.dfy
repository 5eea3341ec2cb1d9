/** Copying between lists of memory fragments.

    A fragment is a piece of one memory, given by address (`struct kvec`) or as
    part of a page that has to be mapped first (`lnet_kiov_t`). The bytes of a
    list of fragments, one fragment after the other, are its flat bytes; byte `i`
    of them is at `Addr(frags, i)`. */
module ScatterGather {
  import opened Options

  /** `base` is the address of the first byte; for a page fragment that is where
      the page is mapped plus `offset`. */
  datatype Frag = Frag(base: nat, len: nat, page: nat, offset: nat)

  /** Flat bytes before fragment `k`. */
  function Start(frags: seq<Frag>, k: nat): nat
    requires k <= |frags|
  {
    if k == 0 then 0 else Start(frags, k - 1) + frags[k - 1].len
  }

  function Total(frags: seq<Frag>): nat { Start(frags, |frags|) }

  lemma {:induction false} StartMono(frags: seq<Frag>, j: nat, k: nat)
    requires j <= k <= |frags|
    ensures Start(frags, j) <= Start(frags, k)
    decreases k
  {
    if j < k {
      StartMono(frags, j, k - 1);
    }
  }

  /** The fragment that flat byte `i` is in, searching back from fragment `k`. */
  function Find(frags: seq<Frag>, i: nat, k: nat): (j: nat)
    requires k <= |frags| && i < Start(frags, k)
    ensures j < k && Start(frags, j) <= i < Start(frags, j) + frags[j].len
  {
    if i >= Start(frags, k - 1) then k - 1 else Find(frags, i, k - 1)
  }

  /** Where flat byte `i` is. */
  function Addr(frags: seq<Frag>, i: nat): nat
    requires i < Total(frags)
  {
    var j := Find(frags, i, |frags|);
    frags[j].base + (i - Start(frags, j))
  }

  /** Byte `o` of fragment `k` is flat byte `Start + o`. */
  lemma AddrAt(frags: seq<Frag>, k: nat, o: nat)
    requires k < |frags| && o < frags[k].len
    ensures Start(frags, k) + o < Total(frags) && Addr(frags, Start(frags, k) + o) == frags[k].base + o
  {
    StartMono(frags, k + 1, |frags|);
    var i := Start(frags, k) + o;
    var j := Find(frags, i, |frags|);
    if j < k {
      StartMono(frags, j + 1, k);
    } else if k < j {
      StartMono(frags, k + 1, j);
    }
  }

  lemma FindAt(frags: seq<Frag>, k: nat, o: nat)
    requires k < |frags| && o < frags[k].len
    ensures Start(frags, k) + o < Total(frags) && Find(frags, Start(frags, k) + o, |frags|) == k
  {
    StartMono(frags, k + 1, |frags|);
    var j := Find(frags, Start(frags, k) + o, |frags|);
    if j < k {
      StartMono(frags, j + 1, k);
    } else if k < j {
      StartMono(frags, k + 1, j);
    }
  }

  // ---------------------------------------------------------------- a place in a list

  /** Offset `o` in fragment `k` is flat position `p`. */
  predicate At(frags: seq<Frag>, k: nat, o: nat, p: nat) {
    k <= |frags| && Start(frags, k) + o == p && (if k < |frags| then o <= frags[k].len else o == 0)
  }

  /** Short of the end there is a fragment. */
  lemma Inside(frags: seq<Frag>, k: nat, o: nat, p: nat)
    requires At(frags, k, o, p) && p < Total(frags)
    ensures k < |frags|
  {
  }

  /** `n` bytes further on in the same fragment, or at the start of the next. */
  lemma Onward(frags: seq<Frag>, k: nat, o: nat, p: nat, n: nat)
    requires k < |frags| && At(frags, k, o, p) && n <= frags[k].len - o
    ensures if frags[k].len > o + n then At(frags, k, o + n, p + n) else At(frags, k + 1, 0, p + n)
  {
  }

  /** The loops that skip complete fragments. */
  method Seek(frags: seq<Frag>, offset: nat) returns (k: nat, o: nat)
    requires offset < Total(frags)
    ensures k < |frags| && o < frags[k].len && At(frags, k, o, offset)
  {
    k, o := 0, offset;
    while o >= frags[k].len
      invariant k < |frags| && Start(frags, k) + o == offset
      decreases |frags| - k
    {
      o := o - frags[k].len;
      k := k + 1;
      if k == |frags| {
        assert false;
      }
    }
  }

  // ---------------------------------------------------------------- extracting

  /** How many fragments `len` bytes from `offset` on have a part in. */
  function Touched(src: seq<Frag>, offset: nat, len: nat): int
    requires len > 0 && offset + len <= Total(src)
  {
    Find(src, offset + len - 1, |src|) - Find(src, offset, |src|) + 1
  }

  /** `lnet_extract_iov` and `lnet_extract_kiov`: the fragments made are exactly
      the flat bytes from `offset` on, `len` of them. There is room when there is
      room for one for each fragment touched, and that many are made; page
      fragments stay in their pages. */
  method Extract(src: seq<Frag>, offset: nat, len: nat, room: nat, pageSize: nat) returns (dst: seq<Frag>)
    requires len > 0 ==> offset + len <= Total(src) && Touched(src, offset, len) <= room
    requires forall f :: f in src ==> f.offset + f.len <= pageSize
    ensures |dst| == if len == 0 then 0 else Touched(src, offset, len)
    ensures Total(dst) == len && (len > 0 ==> Denotes(dst, src, offset))
    ensures forall f :: f in dst ==> Within(f, src, pageSize)
  {
    dst := [];
    if len == 0 {
      return;
    }
    var k: nat, o: nat := Seek(src, offset);
    FindAt(src, k, o);
    ghost var first := k;
    var left := len;
    while true
      invariant k < |src| && o <= src[k].len && 0 < left <= len && |dst| == k - first
      invariant Total(dst) == len - left && At(src, k, o, offset + len - left)
      invariant Denotes(dst, src, offset)
      invariant forall f :: f in dst ==> Within(f, src, pageSize)
      decreases |src| - k
    {
      var fragLen := src[k].len - o;
      NotPast(src, k, o, offset + len - left, offset + len - 1);
      assert |dst| < room;
      var piece := Frag(src[k].base + o, if left <= fragLen then left else fragLen, src[k].page, src[k].offset + o);
      Extended(dst, src, offset, piece, k, o);
      assert src[k] in src;
      assert Within(piece, src, pageSize);
      dst := dst + [piece];
      if left <= fragLen {
        FindAt(src, k, o + left - 1);
        return;
      }
      Onward(src, k, o, offset + len - left, fragLen);
      left := left - fragLen;
      k, o := k + 1, 0;
      Inside(src, k, o, offset + len - left);
    }
  }

  lemma NotPast(frags: seq<Frag>, k: nat, o: nat, p: nat, q: nat)
    requires At(frags, k, o, p) && p <= q < Total(frags)
    ensures k <= Find(frags, q, |frags|)
  {
    var j := Find(frags, q, |frags|);
    if j < k {
      StartMono(frags, j + 1, k);
    }
  }

  /** A part of one of the fragments, and inside its page. */
  ghost predicate Within(f: Frag, src: seq<Frag>, pageSize: nat) {
    && f.offset + f.len <= pageSize
    && exists g :: g in src && f.page == g.page && g.offset <= f.offset && f.offset + f.len <= g.offset + g.len
  }

  /** The flat bytes of `dst` are those of `src` from `offset` on. */
  ghost predicate Denotes(dst: seq<Frag>, src: seq<Frag>, offset: nat) {
    offset + Total(dst) <= Total(src) && forall i :: 0 <= i < Total(dst) ==> Addr(dst, i) == Addr(src, offset + i)
  }

  lemma {:induction false} StartPrefix(frags: seq<Frag>, piece: Frag, k: nat)
    requires k <= |frags|
    ensures Start(frags + [piece], k) == Start(frags, k)
  {
    if k > 0 {
      StartPrefix(frags, piece, k - 1);
    }
  }

  lemma ExtendedAt(dst: seq<Frag>, src: seq<Frag>, offset: nat, piece: Frag, k: nat, o: nat, i: nat)
    requires Denotes(dst, src, offset) && k < |src| && At(src, k, o, offset + Total(dst))
    requires piece.base == src[k].base + o && piece.len <= src[k].len - o
    requires i < Total(dst) + piece.len
    ensures i < Total(dst + [piece]) && offset + i < Total(src) && Addr(dst + [piece], i) == Addr(src, offset + i)
  {
    var longer := dst + [piece];
    StartPrefix(dst, piece, |dst|);
    if i < Total(dst) {
      var j := Find(dst, i, |dst|);
      StartPrefix(dst, piece, j);
      AddrAt(longer, j, i - Start(dst, j));
      assert Addr(dst, i) == dst[j].base + (i - Start(dst, j));
    } else {
      var x := i - Total(dst);
      AddrAt(longer, |dst|, x);
      AddrAt(src, k, o + x);
      assert Start(src, k) + (o + x) == offset + i;
    }
  }

  lemma Extended(dst: seq<Frag>, src: seq<Frag>, offset: nat, piece: Frag, k: nat, o: nat)
    requires Denotes(dst, src, offset) && k < |src| && At(src, k, o, offset + Total(dst))
    requires piece.base == src[k].base + o && piece.len <= src[k].len - o
    ensures Denotes(dst + [piece], src, offset) && Total(dst + [piece]) == Total(dst) + piece.len
  {
    var longer := dst + [piece];
    StartPrefix(dst, piece, |dst|);
    assert |longer| == |dst| + 1 && longer[|dst|] == piece;
    StartMono(src, k + 1, |src|);
    forall i | 0 <= i < Total(longer) ensures Addr(longer, i) == Addr(src, offset + i) {
      ExtendedAt(dst, src, offset, piece, k, o, i);
    }
  }

  // ---------------------------------------------------------------- copying

  /** The destination's bytes are all different, inside the memory, and none of
      them is a source byte. */
  ghost predicate Separate(size: nat, dst: seq<Frag>, src: seq<Frag>) {
    && (forall i :: 0 <= i < Total(dst) ==> Addr(dst, i) < size)
    && (forall i :: 0 <= i < Total(src) ==> Addr(src, i) < size)
    && (forall i, j :: 0 <= i < j < Total(dst) ==> Addr(dst, i) != Addr(dst, j))
    && (forall i, j :: 0 <= i < Total(dst) && 0 <= j < Total(src) ==> Addr(dst, i) != Addr(src, j))
  }

  /** From `was` to `now` the first `n` bytes of the copy have been made and no
      other byte of memory has changed. */
  ghost predicate Copied(was: seq<int>, now: seq<int>, dst: seq<Frag>, doff: nat, src: seq<Frag>, soff: nat, n: nat) {
    && |now| == |was| && doff + n <= Total(dst) && soff + n <= Total(src)
    && (forall i :: 0 <= i < n ==> CopiedByte(was, now, dst, doff, src, soff, i))
    && (forall a :: 0 <= a < |was| && (forall i :: doff <= i < doff + n ==> a != Addr(dst, i)) ==> now[a] == was[a])
  }

  ghost predicate CopiedByte(was: seq<int>, now: seq<int>, dst: seq<Frag>, doff: nat, src: seq<Frag>, soff: nat,
                             i: nat) {
    && doff + i < Total(dst) && soff + i < Total(src)
    && Addr(dst, doff + i) < |now| && Addr(src, soff + i) < |was|
    && now[Addr(dst, doff + i)] == was[Addr(src, soff + i)]
  }

  /** `n` bytes at `d` have become those at `s`. */
  ghost predicate Wrote(mid: seq<int>, now: seq<int>, d: nat, s: nat, n: nat) {
    d + n <= |mid| && s + n <= |mid| && now == mid[..d] + mid[s..s + n] + mid[d + n..]
  }

  /** `memcpy`. */
  method Memcpy(mem: array<int>, d: nat, s: nat, n: nat)
    requires d + n <= mem.Length && s + n <= mem.Length && (d + n <= s || s + n <= d || n == 0)
    modifies mem
    ensures Wrote(old(mem[..]), mem[..], d, s, n)
  {
    forall i | 0 <= i < n {
      mem[d + i] := mem[s + i];
    }
  }

  /** Bytes of one piece of a fragment are consecutive flat bytes. */
  lemma InPiece(frags: seq<Frag>, k: nat, o: nat, p: nat, x: nat)
    requires k < |frags| && At(frags, k, o, p) && o + x < frags[k].len
    ensures p + x < Total(frags) && Addr(frags, p + x) == frags[k].base + o + x
  {
    AddrAt(frags, k, o + x);
    assert Start(frags, k) + (o + x) == p + x;
  }

  /** Bytes copied before are left alone. */
  lemma OldByte(was: seq<int>, mid: seq<int>, now: seq<int>, dst: seq<Frag>, doff: nat, src: seq<Frag>, soff: nat,
                done: nat, n: nat, dk: nat, doo: nat, s: nat, i: nat)
    requires Separate(|was|, dst, src) && Copied(was, mid, dst, doff, src, soff, done) && i < done
    requires dk < |dst| && At(dst, dk, doo, doff + done) && n <= dst[dk].len - doo
    requires Wrote(mid, now, dst[dk].base + doo, s, n)
    ensures CopiedByte(was, now, dst, doff, src, soff, i)
  {
    var d := dst[dk].base + doo;
    assert CopiedByte(was, mid, dst, doff, src, soff, i);
    var a := Addr(dst, doff + i);
    if d <= a < d + n {
      Elsewhere(dst, dk, doo, doff + done, a - d, doff + i);
    }
  }

  /** Another flat byte is another byte. */
  lemma Elsewhere(frags: seq<Frag>, k: nat, o: nat, p: nat, x: nat, i: nat)
    requires k < |frags| && At(frags, k, o, p) && o + x < frags[k].len && i < Total(frags) && i != p + x
    requires forall i, j :: 0 <= i < j < Total(frags) ==> Addr(frags, i) != Addr(frags, j)
    ensures Addr(frags, i) != frags[k].base + o + x
  {
    InPiece(frags, k, o, p, x);
    var j := p + x;
    assert i < j || j < i;
  }

  /** Bytes of the piece come from the source as it was. */
  lemma NewByte(was: seq<int>, mid: seq<int>, now: seq<int>, dst: seq<Frag>, doff: nat, src: seq<Frag>, soff: nat,
                done: nat, n: nat, dk: nat, doo: nat, sk: nat, so: nat, x: nat)
    requires Separate(|was|, dst, src) && Copied(was, mid, dst, doff, src, soff, done) && x < n
    requires dk < |dst| && At(dst, dk, doo, doff + done) && n <= dst[dk].len - doo
    requires sk < |src| && At(src, sk, so, soff + done) && n <= src[sk].len - so
    requires Wrote(mid, now, dst[dk].base + doo, src[sk].base + so, n)
    ensures CopiedByte(was, now, dst, doff, src, soff, done + x)
  {
    InPiece(dst, dk, doo, doff + done, x);
    InPiece(src, sk, so, soff + done, x);
    assert doff + (done + x) == doff + done + x && soff + (done + x) == soff + done + x;
    var b := Addr(src, soff + done + x);
    assert mid[b] == was[b];
  }

  /** One more piece. */
  lemma Piece(was: seq<int>, mid: seq<int>, now: seq<int>, dst: seq<Frag>, doff: nat, src: seq<Frag>, soff: nat,
              done: nat, n: nat, dk: nat, doo: nat, sk: nat, so: nat)
    requires Separate(|was|, dst, src) && Copied(was, mid, dst, doff, src, soff, done)
    requires dk < |dst| && At(dst, dk, doo, doff + done) && n <= dst[dk].len - doo
    requires sk < |src| && At(src, sk, so, soff + done) && n <= src[sk].len - so
    requires Wrote(mid, now, dst[dk].base + doo, src[sk].base + so, n)
    ensures Copied(was, now, dst, doff, src, soff, done + n)
  {
    StartMono(dst, dk + 1, |dst|);
    StartMono(src, sk + 1, |src|);
    forall i | 0 <= i < done + n ensures CopiedByte(was, now, dst, doff, src, soff, i) {
      if i < done {
        OldByte(was, mid, now, dst, doff, src, soff, done, n, dk, doo, src[sk].base + so, i);
      } else {
        NewByte(was, mid, now, dst, doff, src, soff, done, n, dk, doo, sk, so, i - done);
      }
    }
    forall a | 0 <= a < |was| && (forall i :: doff <= i < doff + (done + n) ==> a != Addr(dst, i))
      ensures now[a] == was[a]
    {
      var d := dst[dk].base + doo;
      if d <= a < d + n {
        InPiece(dst, dk, doo, doff + done, a - d);
      }
    }
  }

  /** Pieces of destination and source do not overlap. */
  lemma PiecesApart(size: nat, dst: seq<Frag>, src: seq<Frag>, dk: nat, doo: nat, dp: nat, sk: nat, so: nat, sp: nat,
                    n: nat)
    requires Separate(size, dst, src) && n > 0
    requires dk < |dst| && At(dst, dk, doo, dp) && n <= dst[dk].len - doo
    requires sk < |src| && At(src, sk, so, sp) && n <= src[sk].len - so
    ensures var d, s := dst[dk].base + doo, src[sk].base + so;
            d + n <= size && s + n <= size && (d + n <= s || s + n <= d)
  {
    var d, s := dst[dk].base + doo, src[sk].base + so;
    InPiece(dst, dk, doo, dp, n - 1);
    InPiece(src, sk, so, sp, n - 1);
    InPiece(dst, dk, doo, dp, 0);
    InPiece(src, sk, so, sp, 0);
    if s <= d < s + n {
      InPiece(src, sk, so, sp, d - s);
    } else if d <= s < d + n {
      InPiece(dst, dk, doo, dp, s - d);
    }
  }

  /** Nothing is copied yet. */
  lemma NothingCopied(was: seq<int>, dst: seq<Frag>, doff: nat, src: seq<Frag>, soff: nat)
    requires doff <= Total(dst) && soff <= Total(src)
    ensures Copied(was, was, dst, doff, src, soff, 0)
  {
  }

  function Min(a: nat, b: nat): nat { if a < b then a else b }

  /** `kmap`, for a side of the copy that has no page mapped. */
  method Kmap(mapped: Option<nat>, f: Frag) returns (mapped': Option<nat>, a: nat)
    requires mapped.None?
    ensures mapped' == Some(f.page) && a == f.base
  {
    mapped', a := Some(f.page), f.base;
  }

  /** `kunmap` of the page that is mapped. */
  method Kunmap(mapped: Option<nat>, page: nat) returns (mapped': Option<nat>)
    requires mapped == Some(page)
    ensures mapped'.None?
  {
    mapped' := None;
  }

  /** One side of the copy: fragment `k`, offset `o`, and for a page fragment the
      address once it is mapped. */
  datatype Side = Side(frags: seq<Frag>, paged: bool, k: nat, o: nat, addr: Option<nat>, mapped: Option<nat>)

  /** It is at flat position `p`, and a page is mapped just when its address is
      known. */
  predicate SideOk(s: Side, p: nat) {
    && At(s.frags, s.k, s.o, p) && (s.addr.Some? ==> s.paged && s.k < |s.frags|)
    && (s.addr.Some? ==> s.addr.value == s.frags[s.k].base + s.o && s.mapped == Some(s.frags[s.k].page))
    && (s.addr.None? ==> s.mapped.None?)
  }

  /** The address to copy from or to: a page is mapped once and stays mapped while
      the copy stays in the fragment. */
  method Map(s: Side, ghost p: nat) returns (a: nat, s': Side)
    requires SideOk(s, p) && s.k < |s.frags|
    ensures SideOk(s', p) && s' == s.(addr := s'.addr, mapped := s'.mapped) && a == s.frags[s.k].base + s.o
  {
    s' := s;
    if !s.paged {
      a := s.frags[s.k].base + s.o;
    } else {
      if s.addr.None? {
        var mapped, base := Kmap(s.mapped, s.frags[s.k]);
        s' := s.(mapped := mapped, addr := Some(base + s.o));
      }
      a := s'.addr.value;
    }
  }

  /** Moving on by `n` bytes, unmapping the page when its fragment is done. */
  method Advance(s: Side, ghost p: nat, n: nat) returns (s': Side)
    requires SideOk(s, p) && s.k < |s.frags| && n <= s.frags[s.k].len - s.o
    ensures SideOk(s', p + n) && s'.frags == s.frags && s'.paged == s.paged
    ensures s.k <= s'.k <= |s.frags| && (n == s.frags[s.k].len - s.o ==> s.k < s'.k)
  {
    Onward(s.frags, s.k, s.o, p, n);
    if s.frags[s.k].len > s.o + n {
      s' := s.(o := s.o + n, addr := if s.addr.Some? then Some(s.addr.value + n) else None);
    } else {
      var mapped := s.mapped;
      if s.addr.Some? {
        mapped := Kunmap(mapped, s.frags[s.k].page);
      }
      s' := s.(k := s.k + 1, o := 0, addr := None, mapped := mapped);
    }
  }

  /** One round of the loop: the longest piece that is in one fragment on either
      side. Either bytes are copied or an empty fragment is passed. */
  method Round(mem: array<int>, d: Side, ghost dp: nat, s: Side, ghost sp: nat, left: nat)
    returns (n: nat, d': Side, s': Side)
    requires Separate(mem.Length, d.frags, s.frags) && left > 0
    requires SideOk(d, dp) && dp < Total(d.frags) && d.k < |d.frags|
    requires SideOk(s, sp) && sp < Total(s.frags) && s.k < |s.frags|
    modifies mem
    ensures n <= left && n <= d.frags[d.k].len - d.o && n <= s.frags[s.k].len - s.o
    ensures if n == 0 then mem[..] == old(mem[..])
            else Wrote(old(mem[..]), mem[..], d.frags[d.k].base + d.o, s.frags[s.k].base + s.o, n)
    ensures SideOk(d', dp + n) && d'.frags == d.frags && SideOk(s', sp + n) && s'.frags == s.frags
    ensures d.k <= d'.k <= |d.frags| && s.k <= s'.k <= |s.frags| && (n > 0 || d.k < d'.k || s.k < s'.k)
  {
    hide Wrote, Separate, SideOk;
    PlacesOk(d, dp);
    PlacesOk(s, sp);
    n := Min(Min(d.frags[d.k].len - d.o, s.frags[s.k].len - s.o), left);
    var da, sa;
    da, d' := Map(d, dp);
    sa, s' := Map(s, sp);
    if n > 0 {
      PiecesApart(mem.Length, d.frags, s.frags, d.k, d.o, dp, s.k, s.o, sp, n);
      Memcpy(mem, da, sa, n);
    }
    d' := Advance(d', dp, n);
    s' := Advance(s', sp, n);
  }

  lemma PlacesOk(s: Side, p: nat)
    requires SideOk(s, p) && p < Total(s.frags)
    ensures s.k < |s.frags| && At(s.frags, s.k, s.o, p) && s.o <= s.frags[s.k].len
  {
  }

  method Begin(frags: seq<Frag>, offset: nat, paged: bool) returns (s: Side)
    requires offset < Total(frags)
    ensures SideOk(s, offset) && s.frags == frags && s.k < |frags|
  {
    var k: nat, o: nat := Seek(frags, offset);
    s := Side(frags, paged, k, o, None, None);
  }

  /** `lnet_copy_iov2iov`, `lnet_copy_kiov2kiov`, `lnet_copy_kiov2iov` and
      `lnet_copy_iov2kiov`, as the two sides are paged or not: destination bytes
      `[doff, doff + nob)` become source bytes `[soff, soff + nob)`, no other byte
      of memory changes, and no page is left mapped. */
  method Copy(mem: array<int>, dst: seq<Frag>, doff: nat, dpaged: bool, src: seq<Frag>, soff: nat, spaged: bool,
              nob: nat)
    returns (dmapped: Option<nat>, smapped: Option<nat>)
    requires Separate(mem.Length, dst, src)
    requires doff + nob <= Total(dst) && soff + nob <= Total(src)
    modifies mem
    ensures Copied(old(mem[..]), mem[..], dst, doff, src, soff, nob)
    ensures dmapped.None? && smapped.None?
  {
    dmapped, smapped := None, None;
    ghost var was := mem[..];
    NothingCopied(was, dst, doff, src, soff);
    if nob == 0 {
      return;
    }
    hide Separate, Copied, SideOk;
    var d := Begin(dst, doff, dpaged);
    var s := Begin(src, soff, spaged);
    var done: nat := 0;
    while done < nob
      invariant done <= nob && Copied(was, mem[..], dst, doff, src, soff, done)
      invariant d.frags == dst && SideOk(d, doff + done) && s.frags == src && SideOk(s, soff + done)
      invariant d.k <= |dst| && s.k <= |src|
      decreases (nob - done) + (|dst| - d.k) + (|src| - s.k)
    {
      var n, d', s' := CopyMore(mem, was, d, doff, s, soff, done, nob - done);
      d, s, done := d', s', done + n;
    }
    dmapped := Finish(d, doff + nob);
    smapped := Finish(s, soff + nob);
  }

  /** One round, and what has been copied by then. */
  method CopyMore(mem: array<int>, ghost was: seq<int>, d: Side, ghost doff: nat, s: Side, ghost soff: nat,
                  ghost done: nat, left: nat)
    returns (n: nat, d': Side, s': Side)
    requires Separate(mem.Length, d.frags, s.frags) && |was| == mem.Length
    requires left > 0 && doff + done + left <= Total(d.frags) && soff + done + left <= Total(s.frags)
    requires SideOk(d, doff + done) && SideOk(s, soff + done) && d.k <= |d.frags| && s.k <= |s.frags|
    requires Copied(was, mem[..], d.frags, doff, s.frags, soff, done)
    modifies mem
    ensures n <= left && Copied(was, mem[..], d.frags, doff, s.frags, soff, done + n)
    ensures SideOk(d', doff + (done + n)) && d'.frags == d.frags && SideOk(s', soff + (done + n)) && s'.frags == s.frags
    ensures d.k <= d'.k <= |d.frags| && s.k <= s'.k <= |s.frags| && (n > 0 || d.k < d'.k || s.k < s'.k)
  {
    hide Separate, Copied, Wrote, SideOk, At;
    PlacesOk(d, doff + done);
    PlacesOk(s, soff + done);
    ghost var mid := mem[..];
    n, d', s' := Round(mem, d, doff + done, s, soff + done, left);
    if n > 0 {
      Piece(was, mid, mem[..], d.frags, doff, s.frags, soff, done, n, d.k, d.o, s.k, s.o);
    }
  }

  method Finish(s: Side, ghost p: nat) returns (mapped: Option<nat>)
    requires SideOk(s, p)
    ensures mapped.None?
  {
    mapped := s.mapped;
    if s.addr.Some? {
      mapped := Kunmap(mapped, s.frags[s.k].page);
    }
  }

  // ---------------------------------------------------------------- flat bytes

  /** The bytes of a fragment, and of a list of them. */
  function Bytes(mem: seq<int>, f: Frag): seq<int> {
    seq(f.len, j requires 0 <= j < f.len => if f.base + j < |mem| then mem[f.base + j] else 0)
  }

  function Flat(mem: seq<int>, frags: seq<Frag>): seq<int> {
    if frags == [] then [] else Flat(mem, frags[..|frags| - 1]) + Bytes(mem, frags[|frags| - 1])
  }

  lemma {:induction false} FlatIs(mem: seq<int>, frags: seq<Frag>, i: nat)
    ensures |Flat(mem, frags)| == Total(frags)
    ensures i < Total(frags) && Addr(frags, i) < |mem| ==> Flat(mem, frags)[i] == mem[Addr(frags, i)]
  {
    if frags != [] {
      var front, last := frags[..|frags| - 1], frags[|frags| - 1];
      assert frags == front + [last];
      FlatIs(mem, front, i);
      StartPrefix(front, last, |front|);
      if i < Total(front) {
        var j := Find(front, i, |front|);
        StartPrefix(front, last, j);
        AddrAt(frags, j, i - Start(front, j));
        assert Addr(front, i) == Addr(frags, i);
      } else if i < Total(frags) {
        AddrAt(frags, |front|, i - Total(front));
      }
    }
  }

  /** In flat bytes the copy is one splice of the source into the destination, and
      the source is as it was. */
  lemma FlatCopy(was: seq<int>, now: seq<int>, dst: seq<Frag>, doff: nat, src: seq<Frag>, soff: nat, n: nat)
    requires Separate(|was|, dst, src) && Copied(was, now, dst, doff, src, soff, n)
    ensures |Flat(was, dst)| == Total(dst) && |Flat(was, src)| == Total(src)
    ensures Flat(now, dst) == Flat(was, dst)[..doff] + Flat(was, src)[soff..soff + n] + Flat(was, dst)[doff + n..]
    ensures Flat(now, src) == Flat(was, src)
  {
    FlatIs(was, dst, 0);
    FlatIs(now, dst, 0);
    FlatIs(was, src, 0);
    assert doff + n <= Total(dst) && soff + n <= Total(src);
    hide Flat, Addr, Total, Separate, Copied;
    var before, after, from := Flat(was, dst), Flat(now, dst), Flat(was, src);
    forall i | 0 <= i < |before|
      ensures after[i] == if doff <= i < doff + n then from[soff + (i - doff)] else before[i]
    {
      SplicedByte(was, now, dst, doff, src, soff, n, i);
    }
    Splice(before, after, from, doff, soff, n);
    SourceSame(was, now, dst, doff, src, soff, n);
  }

  lemma Splice(before: seq<int>, after: seq<int>, from: seq<int>, doff: nat, soff: nat, n: nat)
    requires |after| == |before| && doff + n <= |before| && soff + n <= |from|
    requires forall i :: 0 <= i < |before| ==>
               after[i] == if doff <= i < doff + n then from[soff + (i - doff)] else before[i]
    ensures after == before[..doff] + from[soff..soff + n] + before[doff + n..]
  {
  }

  lemma SourceSame(was: seq<int>, now: seq<int>, dst: seq<Frag>, doff: nat, src: seq<Frag>, soff: nat, n: nat)
    requires Separate(|was|, dst, src) && Copied(was, now, dst, doff, src, soff, n)
    ensures Flat(now, src) == Flat(was, src)
  {
    FlatIs(was, src, 0);
    FlatIs(now, src, 0);
    hide Flat;
    forall i | 0 <= i < Total(src) ensures Flat(now, src)[i] == Flat(was, src)[i] {
      FlatIs(now, src, i);
      FlatIs(was, src, i);
    }
  }

  lemma SplicedByte(was: seq<int>, now: seq<int>, dst: seq<Frag>, doff: nat, src: seq<Frag>, soff: nat, n: nat, i: nat)
    requires Separate(|was|, dst, src) && Copied(was, now, dst, doff, src, soff, n) && i < Total(dst)
    ensures |Flat(was, src)| == Total(src) && |Flat(was, dst)| == |Flat(now, dst)| == Total(dst)
    ensures doff + n <= Total(dst) && soff + n <= Total(src)
    ensures Flat(now, dst)[i] ==
              if doff <= i < doff + n then Flat(was, src)[soff + (i - doff)] else Flat(was, dst)[i]
  {
    FlatIs(now, dst, i);
    FlatIs(was, dst, i);
    FlatIs(was, src, 0);
    hide Flat;
    if doff <= i < doff + n {
      assert CopiedByte(was, now, dst, doff, src, soff, i - doff);
      FlatIs(was, src, soff + (i - doff));
    }
  }

  /** Extracted fragments hold the slice of the source's flat bytes. */
  lemma FlatExtract(mem: seq<int>, dst: seq<Frag>, src: seq<Frag>, offset: nat)
    requires Denotes(dst, src, offset) && forall i :: 0 <= i < Total(src) ==> Addr(src, i) < |mem|
    ensures |Flat(mem, src)| == Total(src) && Flat(mem, dst) == Flat(mem, src)[offset..offset + Total(dst)]
  {
    FlatIs(mem, dst, 0);
    FlatIs(mem, src, 0);
    forall i | 0 <= i < Total(dst) ensures Flat(mem, dst)[i] == Flat(mem, src)[offset + i] {
      FlatIs(mem, dst, i);
      FlatIs(mem, src, offset + i);
    }
  }
}
