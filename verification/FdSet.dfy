/** The bit-vector descriptor set (exc_12_3.c): a byte array that refines a set of numbers. */
module FdSet {
  const SIZE := 1024
  const BYTES := 128

  /** The bit of descriptor fd within its byte. */
  function Bit(fd: nat): bv8 {
    (0x80 as bv8) >> (fd % 8)
  }

  /** Bit r, counted from the most significant one, of a byte. */
  predicate Has(b: bv8, r: nat)
    requires r < 8
  {
    b & ((0x80 as bv8) >> r) != 0
  }

  /** The set that a byte array stands for. */
  ghost function Members(vfd: seq<bv8>): (m: set<nat>) {
    set fd: nat | fd < 8 * |vfd| && Has(vfd[fd / 8], fd % 8)
  }

  /** FD_ISSET as written: the byte is shifted and not masked. */
  predicate IsSetAsWritten(vfd: seq<bv8>, fd: nat)
    requires fd / 8 < |vfd|
  {
    (vfd[fd / 8] >> (7 - fd % 8)) != 0
  }

  /** FD_ISSET with the shifted byte masked by 1. */
  predicate IsSetMasked(vfd: seq<bv8>, fd: nat)
    requires fd / 8 < |vfd|
  {
    ((vfd[fd / 8] >> (7 - fd % 8)) & 1) != 0
  }

  // ----- Facts about one byte -----------------------------------------------------------------

  lemma SetBit(b: bv8, r: nat, q: nat)
    requires r < 8 && q < 8
    ensures Has(b | ((0x80 as bv8) >> r), q) <==> q == r || Has(b, q)
  {
    assert r == 0 || r == 1 || r == 2 || r == 3 || r == 4 || r == 5 || r == 6 || r == 7;
    assert q == 0 || q == 1 || q == 2 || q == 3 || q == 4 || q == 5 || q == 6 || q == 7;
  }

  lemma ClearBit(b: bv8, r: nat, q: nat)
    requires r < 8 && q < 8
    ensures Has(b & !((0x80 as bv8) >> r), q) <==> q != r && Has(b, q)
  {
    assert r == 0 || r == 1 || r == 2 || r == 3 || r == 4 || r == 5 || r == 6 || r == 7;
    assert q == 0 || q == 1 || q == 2 || q == 3 || q == 4 || q == 5 || q == 6 || q == 7;
  }

  /** The shift keeps exactly the bits up to r, the last of them in the lowest place. */
  lemma ShiftedByte(b: bv8, r: nat)
    requires r < 8
    ensures (b >> (7 - r)) != 0 <==>
              || Has(b, 0) || (r >= 1 && Has(b, 1)) || (r >= 2 && Has(b, 2)) || (r >= 3 && Has(b, 3))
              || (r >= 4 && Has(b, 4)) || (r >= 5 && Has(b, 5)) || (r >= 6 && Has(b, 6)) || (r >= 7 && Has(b, 7))
    ensures ((b >> (7 - r)) & 1) != 0 <==> Has(b, r)
  {
    assert r == 0 || r == 1 || r == 2 || r == 3 || r == 4 || r == 5 || r == 6 || r == 7;
  }

  lemma ShiftedByteExists(b: bv8, r: nat)
    requires r < 8
    ensures (b >> (7 - r)) != 0 <==> exists q: nat :: q <= r && Has(b, q)
  {
    ShiftedByte(b, r);
    if q: nat :| q <= r && Has(b, q) {
      assert q == 0 || q == 1 || q == 2 || q == 3 || q == 4 || q == 5 || q == 6 || q == 7;
    }
  }

  /** Replacing the byte of fd changes the membership of that byte's descriptors alone. */
  lemma OtherBytes(vfd: seq<bv8>, fd: nat, b: bv8, g: nat)
    requires fd < 8 * |vfd| && g < 8 * |vfd|
    ensures Has(vfd[fd / 8 := b][g / 8], g % 8) <==> Has(if g / 8 == fd / 8 then b else vfd[g / 8], g % 8)
  {
  }

  lemma SamePlace(fd: nat, g: nat)
    ensures g == fd <==> g / 8 == fd / 8 && g % 8 == fd % 8
  {
  }

  /** Setting the bit of fd adds fd and nothing else. */
  lemma SetMember(vfd: seq<bv8>, fd: nat)
    requires fd < 8 * |vfd|
    ensures Members(vfd[fd / 8 := vfd[fd / 8] | Bit(fd)]) == Members(vfd) + {fd}
  {
    var b := vfd[fd / 8] | Bit(fd);
    var now := vfd[fd / 8 := b];
    forall g: nat | g < 8 * |vfd| ensures Has(now[g / 8], g % 8) <==> g == fd || Has(vfd[g / 8], g % 8) {
      OtherBytes(vfd, fd, b, g);
      SamePlace(fd, g);
      SetBit(vfd[fd / 8], fd % 8, g % 8);
    }
  }

  /** Clearing it takes away fd and nothing else. */
  lemma ClearMember(vfd: seq<bv8>, fd: nat)
    requires fd < 8 * |vfd|
    ensures Members(vfd[fd / 8 := vfd[fd / 8] & !Bit(fd)]) == Members(vfd) - {fd}
  {
    var b := vfd[fd / 8] & !Bit(fd);
    var now := vfd[fd / 8 := b];
    forall g: nat | g < 8 * |vfd| ensures Has(now[g / 8], g % 8) <==> g != fd && Has(vfd[g / 8], g % 8) {
      OtherBytes(vfd, fd, b, g);
      SamePlace(fd, g);
      ClearBit(vfd[fd / 8], fd % 8, g % 8);
    }
  }

  // ----- The macros in place --------------------------------------------------------------------

  class DescriptorSet {
    const vfd: array<bv8>

    ghost predicate Valid() {
      vfd.Length == BYTES
    }

    ghost function View(): set<nat>
      reads vfd
    {
      Members(vfd[..])
    }

    constructor ()
      ensures Valid() && fresh(vfd)
    {
      vfd := new bv8[BYTES];
    }

    method FdZero()
      modifies vfd
      ensures View() == {}
    {
      for i := 0 to vfd.Length
        invariant forall j :: 0 <= j < i ==> vfd[j] == 0
      {
        vfd[i] := 0;
      }
      forall fd: nat | fd < 8 * vfd.Length ensures !Has(vfd[..][fd / 8], fd % 8) {
        assert vfd[fd / 8] == 0;
      }
    }

    method FdSet(fd: nat)
      requires Valid() && fd < SIZE
      modifies vfd
      ensures View() == old(View()) + {fd}
    {
      var bm: bv8 := 0x80;
      bm := bm >> (fd % 8);
      ghost var was := vfd[..];
      vfd[fd / 8] := vfd[fd / 8] | bm;
      assert vfd[..] == was[fd / 8 := was[fd / 8] | Bit(fd)];
      SetMember(was, fd);
    }

    method FdClr(fd: nat)
      requires Valid() && fd < SIZE
      modifies vfd
      ensures View() == old(View()) - {fd}
    {
      var bm: bv8 := 0x80;
      bm := bm >> (fd % 8);
      ghost var was := vfd[..];
      vfd[fd / 8] := vfd[fd / 8] & !bm;
      assert vfd[..] == was[fd / 8 := was[fd / 8] & !Bit(fd)];
      ClearMember(was, fd);
    }

    /** FD_ISSET as written. */
    method FdIsSet(fd: nat) returns (r: int)
      requires Valid() && fd < SIZE
      ensures r == 0 || r == 1
      ensures r == 1 <==> exists g: nat :: g in View() && g / 8 == fd / 8 && g <= fd
    {
      ghost var bytes := vfd[..];
      IsSetMeans(bytes, fd);
      r := if (vfd[fd / 8] >> (7 - fd % 8)) != 0 then 1 else 0;
      assert r == 1 <==> IsSetAsWritten(bytes, fd);
      assert View() == Members(bytes);
    }
  }

  // ----- Main results -------------------------------------------------------------------------

  /** FD_ISSET as written is true exactly when the same byte has a member not above fd. */
  lemma IsSetMeans(vfd: seq<bv8>, fd: nat)
    requires fd < 8 * |vfd|
    ensures IsSetAsWritten(vfd, fd) <==> exists g: nat :: g in Members(vfd) && g / 8 == fd / 8 && g <= fd
  {
    var b, r := vfd[fd / 8], fd % 8;
    ShiftedByteExists(b, r);
    if q: nat :| q <= r && Has(b, q) {
      var g := 8 * (fd / 8) + q;
      assert g / 8 == fd / 8 && g % 8 == q;
      assert g in Members(vfd);
    }
    if g: nat :| g in Members(vfd) && g / 8 == fd / 8 && g <= fd {
      assert g % 8 <= r && Has(b, g % 8);
    }
  }

  /** It agrees with membership exactly when fd is a member or no smaller member shares its byte. */
  lemma IsSetCorrectWhen(vfd: seq<bv8>, fd: nat)
    requires fd < 8 * |vfd|
    ensures (IsSetAsWritten(vfd, fd) <==> fd in Members(vfd))
            <==> fd in Members(vfd) || forall g: nat :: g in Members(vfd) && g < fd ==> g / 8 != fd / 8
  {
    IsSetMeans(vfd, fd);
    assert fd / 8 == fd / 8;
  }

  /** A set on which it is wrong: only descriptor 0 is a member, and descriptor 7 is reported too. */
  lemma IsSetIsWrong()
    ensures exists vfd: seq<bv8>, fd: nat ::
              |vfd| == BYTES && fd < SIZE && IsSetAsWritten(vfd, fd) && fd !in Members(vfd)
  {
    var vfd := seq(BYTES, i => if i == 0 then 0x80 as bv8 else 0);
    assert vfd[0] == 0x80;
    assert IsSetAsWritten(vfd, 7);
    assert !Has(vfd[0], 7);
    assert 7 !in Members(vfd);
  }

  /** With the mask it is membership. */
  lemma MaskedIsMembership(vfd: seq<bv8>, fd: nat)
    requires fd < 8 * |vfd|
    ensures IsSetMasked(vfd, fd) <==> fd in Members(vfd)
  {
    ShiftedByte(vfd[fd / 8], fd % 8);
  }
}
