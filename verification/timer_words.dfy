/**
 The comparisons of add_node as the source makes them, on 32-bit words with or-masks, are the
 comparisons of quotients with which the model files a timer.
 */
module TimerWords {
  import opened TimerSlots

  function Int(x: bv32): nat { x as nat }
  function Masked8(x: bv32): bv32 { x | 0xFF }
  function Masked14(x: bv32): bv32 { x | 0x3FFF }
  function Masked20(x: bv32): bv32 { x | 0xF_FFFF }
  function Masked26(x: bv32): bv32 { x | 0x3FF_FFFF }
  function Over8(x: bv32): bv32 { x >> 8 }
  function Over14(x: bv32): bv32 { x >> 14 }
  function Over20(x: bv32): bv32 { x >> 20 }
  function Over26(x: bv32): bv32 { x >> 26 }
  function Under8(x: bv32): bv32 { x & 0xFF }
  function Under14(x: bv32): bv32 { x & 0x3FFF }
  function Under20(x: bv32): bv32 { x & 0xF_FFFF }
  function Under26(x: bv32): bv32 { x & 0x3FF_FFFF }

  // ----- a shift is a division: the word is cut at bit 20, and what is below cut again -----

  lemma Cut20(x: bv32)
    ensures Int(x) == Int(Over20(x)) * 0x10_0000 + Int(Under20(x))
  {
  }

  lemma Cut26(x: bv32)
    ensures Int(x) == Int(Over26(x)) * 0x400_0000 + Int(Under26(x))
  {
  }

  lemma Cut14(x: bv32)
    requires x <= 0xF_FFFF
    ensures Int(x) == Int(Over14(x)) * 0x4000 + Int(Under14(x))
  {
  }

  lemma Cut8(x: bv32)
    requires x <= 0xF_FFFF
    ensures Int(x) == Int(Over8(x)) * 0x100 + Int(Under8(x))
  {
  }

  lemma Bits14(x: bv32)
    ensures (x >> 14) as nat == (x >> 20) as nat * 0x40 + ((x & 0xF_FFFF) >> 14) as nat
  {
  }

  lemma Bits8(x: bv32)
    ensures (x >> 8) as nat == (x >> 20) as nat * 0x1000 + ((x & 0xF_FFFF) >> 8) as nat
  {
  }

  lemma Join14(x: bv32)
    ensures Int(Over14(x)) == Int(Over20(x)) * 0x40 + Int(Over14(Under20(x)))
  {
    Bits14(x);
  }

  lemma Join8(x: bv32)
    ensures Int(Over8(x)) == Int(Over20(x)) * 0x1000 + Int(Over8(Under20(x)))
  {
    Bits8(x);
  }

  lemma UnderIsSmall(x: bv32)
    ensures Under20(x) <= 0xF_FFFF && Under26(x) <= 0x3FF_FFFF && Under14(x) <= 0x3FFF && Under8(x) <= 0xFF
  {
  }

  lemma Small8(x: bv32)
    requires x <= 0xFF
    ensures Int(x) < 0x100
  {
  }

  lemma Small14(x: bv32)
    requires x <= 0x3FFF
    ensures Int(x) < 0x4000
  {
  }

  lemma Small6(x: bv32)
    requires x <= 0x3F
    ensures Int(x) < 0x40
  {
  }

  lemma UpperIsSmall(x: bv32)
    ensures Over14(Under20(x)) <= 0x3F && Over20(Under26(x)) <= 0x3F
  {
  }

  lemma Small20(x: bv32)
    ensures Int(Under20(x)) < 0x10_0000
  {
    hide *;
    UnderIsSmall(x);
    UnderIsSmall(Under20(x));
    UpperIsSmall(x);
    Cut14(Under20(x));
    Small6(Over14(Under20(x)));
    Small14(Under14(Under20(x)));
  }

  lemma Small26(x: bv32)
    ensures Int(Under26(x)) < 0x400_0000
  {
    hide *;
    UpperIsSmall(x);
    Cut20(Under26(x));
    Small6(Over20(Under26(x)));
    Small20(Under26(x));
  }

  lemma Divides(x: nat, q: nat, r: nat)
    ensures r < 0x100 && x == q * 0x100 + r ==> q == x / 0x100
    ensures r < 0x4000 && x == q * 0x4000 + r ==> q == x / 0x4000
    ensures r < 0x10_0000 && x == q * 0x10_0000 + r ==> q == x / 0x10_0000
    ensures r < 0x400_0000 && x == q * 0x400_0000 + r ==> q == x / 0x400_0000
  {
  }

  lemma Over8IsQuotient(x: bv32)
    ensures Int(Over8(x)) == Quot(Int(x), 0)
  {
    hide *;
    UnderIsSmall(x);
    UnderIsSmall(Under20(x));
    Cut20(x);
    Join8(x);
    Cut8(Under20(x));
    Small8(Under8(Under20(x)));
    Divides(Int(x), Int(Over8(x)), Int(Under8(Under20(x))));
    QuotIs(Int(x));
  }

  lemma Over14IsQuotient(x: bv32)
    ensures Int(Over14(x)) == Quot(Int(x), 1)
  {
    hide *;
    UnderIsSmall(x);
    UnderIsSmall(Under20(x));
    Cut20(x);
    Join14(x);
    Cut14(Under20(x));
    Small14(Under14(Under20(x)));
    Divides(Int(x), Int(Over14(x)), Int(Under14(Under20(x))));
    QuotIs(Int(x));
  }

  lemma Over20IsQuotient(x: bv32)
    ensures Int(Over20(x)) == Quot(Int(x), 2)
  {
    hide *;
    UnderIsSmall(x);
    Cut20(x);
    Small20(x);
    Divides(Int(x), Int(Over20(x)), Int(Under20(x)));
    QuotIs(Int(x));
  }

  lemma Over26IsQuotient(x: bv32)
    ensures Int(Over26(x)) == Quot(Int(x), 3)
  {
    hide *;
    UnderIsSmall(x);
    Cut26(x);
    Small26(x);
    Divides(Int(x), Int(Over26(x)), Int(Under26(x)));
    QuotIs(Int(x));
  }

  lemma QuotIs(x: nat)
    ensures Quot(x, 0) == x / 0x100 && Quot(x, 1) == x / 0x4000
    ensures Quot(x, 2) == x / 0x10_0000 && Quot(x, 3) == x / 0x400_0000
  {
  }

  lemma SameInt(x: bv32, y: bv32)
    ensures Int(x) == Int(y) <==> x == y
  {
    assert Int(x) as bv32 == x && Int(y) as bv32 == y;
  }

  // ----- or-ing a mask away loses what shifting loses -----

  function Filled8(x: bv32): bv32 { (x << 8) | 0xFF }
  function Filled14(x: bv32): bv32 { (x << 14) | 0x3FFF }
  function Filled20(x: bv32): bv32 { (x << 20) | 0xF_FFFF }
  function Filled26(x: bv32): bv32 { (x << 26) | 0x3FF_FFFF }

  lemma Masked8IsOver(x: bv32)
    ensures Over8(Masked8(x)) == Over8(x) && Masked8(x) == Filled8(Over8(x))
  {
  }

  lemma Masked14IsOver(x: bv32)
    ensures Over14(Masked14(x)) == Over14(x) && Masked14(x) == Filled14(Over14(x))
  {
  }

  lemma Masked20IsOver(x: bv32)
    ensures Over20(Masked20(x)) == Over20(x) && Masked20(x) == Filled20(Over20(x))
  {
  }

  lemma Masked26IsOver(x: bv32)
    ensures Over26(Masked26(x)) == Over26(x) && Masked26(x) == Filled26(Over26(x))
  {
  }

  /** Comparing two words after or-ing both with a mask is comparing their quotients. */
  lemma OrMaskIsQuot(x: bv32, y: bv32)
    ensures Masked8(x) == Masked8(y) <==> Quot(Int(x), 0) == Quot(Int(y), 0)
    ensures Masked14(x) == Masked14(y) <==> Quot(Int(x), 1) == Quot(Int(y), 1)
    ensures Masked20(x) == Masked20(y) <==> Quot(Int(x), 2) == Quot(Int(y), 2)
    ensures Masked26(x) == Masked26(y) <==> Quot(Int(x), 3) == Quot(Int(y), 3)
  {
    hide *;
    Masked8IsOver(x);
    Masked8IsOver(y);
    Masked14IsOver(x);
    Masked14IsOver(y);
    Masked20IsOver(x);
    Masked20IsOver(y);
    Masked26IsOver(x);
    Masked26IsOver(y);
    Over8IsQuotient(x);
    Over8IsQuotient(y);
    SameInt(Over8(x), Over8(y));
    Over14IsQuotient(x);
    Over14IsQuotient(y);
    SameInt(Over14(x), Over14(y));
    Over20IsQuotient(x);
    Over20IsQuotient(y);
    SameInt(Over20(x), Over20(y));
    Over26IsQuotient(x);
    Over26IsQuotient(y);
    SameInt(Over26(x), Over26(y));
  }
}
