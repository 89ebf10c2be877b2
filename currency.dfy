/**
 * `copper_to_gsc` and `copper_to_gsc_short`: a copper amount written as
 * gold, silver and copper coins (100 copper to the silver, 100 silver to the
 * gold).  The same `copper_to_gsc` appears in discord_card.py and in
 * visualize_consumes.py; it is defined once here.  Python's `//` and `%`
 * floor, which for the positive divisors used here is what Dafny's `/`
 * and `%` compute, so negative amounts are covered too.
 */
module Currency {
  import opened Wrappers
  import opened Text

  datatype Coins = Coins(gold: int, silver: int, copper: int)

  /** The amount the coins add up to. */
  function Value(c: Coins): int {
    c.gold * 10000 + c.silver * 100 + c.copper
  }

  /** `g = copper // 10000`, `s = (copper % 10000) // 100`, `c = copper % 100` */
  function ToCoins(copper: int): (r: Coins)
    ensures Value(r) == copper
    ensures 0 <= r.silver < 100 && 0 <= r.copper < 100
  {
    var rest := copper % 10000;
    var r := Coins(copper / 10000, rest / 100, copper % 100);
    assert rest == (rest / 100) * 100 + rest % 100;
    assert copper == (copper / 10000) * 10000 + rest;
    ModOfMod(copper);
    r
  }

  lemma {:induction false} ModOfMod(x: int)
    ensures (x % 10000) % 100 == x % 100
  {
    var q := x / 10000;
    var r := x % 10000;
    assert x == q * 10000 + r;
    assert x == (q * 100) * 100 + r;
    assert x % 100 == r % 100 by {
      var a := r / 100;
      var b := r % 100;
      assert x == (q * 100 + a) * 100 + b;
      assert 0 <= b < 100;
    }
  }

  /**
   * The decomposition is the only one with silver and copper in [0, 99]:
   * `ToCoins` and `Value` are inverse to each other on such coins.
   */
  lemma {:induction false} CoinsUnique(c: Coins)
    requires 0 <= c.silver < 100 && 0 <= c.copper < 100
    ensures ToCoins(Value(c)) == c
  {
    var v := Value(c);
    var low := c.silver * 100 + c.copper;
    assert 0 <= low < 10000;
    assert v == c.gold * 10000 + low;
    DivModUnique(v, 10000, c.gold, low);
    assert v / 10000 == c.gold && v % 10000 == low;
    DivModUnique(low, 100, c.silver, c.copper);
    assert v == (c.gold * 100 + c.silver) * 100 + c.copper;
    DivModUnique(v, 100, c.gold * 100 + c.silver, c.copper);
  }

  lemma {:induction false} DivModUnique(x: int, d: int, q: int, r: int)
    requires d == 100 || d == 10000
    requires 0 <= r < d && x == q * d + r
    ensures x / d == q && x % d == r
  {
    if d == 100 {
      assert x == q * 100 + r;
    } else {
      assert x == q * 10000 + r;
    }
  }

  /** `f"{n:02d}"` for `0 <= n < 100`. */
  function Pad2(n: int): (s: string)
    requires 0 <= n < 100
    ensures |s| == 2 && AllDigits(s)
  {
    [DigitChar(n / 10), DigitChar(n % 10)]
  }

  lemma {:induction false} Pad2Injective(a: int, b: int)
    requires 0 <= a < 100 && 0 <= b < 100 && Pad2(a) == Pad2(b)
    ensures a == b
  {
    assert DigitValue(Pad2(a)[0]) == a / 10 && DigitValue(Pad2(a)[1]) == a % 10;
    assert DigitValue(Pad2(b)[0]) == b / 10 && DigitValue(Pad2(b)[1]) == b % 10;
  }

  /** `"{g}g {s:02d}s {c:02d}c"` for the gold text `g`. */
  function Render(gold: string, silver: int, copper: int): (t: string)
    requires 0 <= silver < 100 && 0 <= copper < 100
    ensures |t| == |gold| + 9
    ensures t[..|gold|] == gold
    ensures t[|gold| + 2..|gold| + 4] == Pad2(silver)
    ensures t[|gold| + 6..|gold| + 8] == Pad2(copper)
  {
    gold + "g " + Pad2(silver) + "s " + Pad2(copper) + "c"
  }

  /** `copper_to_gsc` */
  function CopperToGsc(copper: int): string {
    var c := ToCoins(copper);
    Render(IntToString(c.gold), c.silver, c.copper)
  }

  /** `copper_to_gsc_short`: as `CopperToGsc`, without the copper part when it is zero. */
  function CopperToGscShort(copper: int): string {
    var c := ToCoins(copper);
    if c.copper == 0 then IntToString(c.gold) + "g " + Pad2(c.silver) + "s"
    else Render(IntToString(c.gold), c.silver, c.copper)
  }

  /**
   * The short form leaves out exactly the trailing `" 00c"`, and only when the
   * amount is a whole number of silver; otherwise it is the long form.
   */
  lemma {:induction false} ShortForm(copper: int)
    ensures copper % 100 == 0 ==> CopperToGscShort(copper) + " 00c" == CopperToGsc(copper)
    ensures copper % 100 != 0 ==> CopperToGscShort(copper) == CopperToGsc(copper)
    ensures CopperToGscShort(copper) != CopperToGsc(copper) <==> copper % 100 == 0
  {
    var c := ToCoins(copper);
    if copper % 100 == 0 {
      assert Pad2(0) == "00";
      var short := CopperToGscShort(copper);
      assert |short + " 00c"| == |short| + 4;
      assert |CopperToGsc(copper)| == |short| + 4;
    }
  }

  /** Different amounts are rendered differently: the text identifies the amount. */
  lemma {:induction false} CopperToGscInjective(a: int, b: int)
    requires CopperToGsc(a) == CopperToGsc(b)
    ensures a == b
  {
    var ca, cb := ToCoins(a), ToCoins(b);
    var ga, gb := IntToString(ca.gold), IntToString(cb.gold);
    var ta, tb := CopperToGsc(a), CopperToGsc(b);
    assert |ga| == |gb|;
    assert ga == gb;
    ParseIntOfIntToString(ca.gold);
    ParseIntOfIntToString(cb.gold);
    Pad2Injective(ca.silver, cb.silver);
    Pad2Injective(ca.copper, cb.copper);
    assert ca == cb;
  }
}
