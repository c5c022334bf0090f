/** The display helpers of the game utilities: shortening a wallet address and
    the win-rate percentage. */
module Format {
  import opened Arith

  /** `formatAddress(address)`: the empty string stays empty; otherwise the
      first six characters, an ellipsis, and the last four (JavaScript's
      `slice(0, 6)` and `slice(-4)`, which take the whole string when it is
      shorter). */
  function FormatAddress(a: string): (r: string)
    ensures a == [] ==> r == []
    ensures a != [] ==>
      var head, tail := Min(6, |a|), Min(4, |a|);
      && |r| == head + 3 + tail
      && r[..head] == a[..head]
      && r[head..head + 3] == "..."
      && r[head + 3..] == a[|a| - tail..]
  {
    if a == [] then []
    else a[..Min(6, |a|)] + "..." + a[|a| - Min(4, |a|)..]
  }

  /** A full-length address is shown in thirteen characters, and the address
      is the shown head, some hidden middle, and the shown tail. */
  lemma FormatAddressKeepsEnds(a: string)
    requires |a| >= 10
    ensures |FormatAddress(a)| == 13
    ensures FormatAddress(a)[6..9] == "..."
    ensures exists middle: string :: a == FormatAddress(a)[..6] + middle + FormatAddress(a)[9..]
  {
    var r := FormatAddress(a);
    var middle := a[6..|a| - 4];
    assert a == a[..6] + middle + a[|a| - 4..];
    assert r[..6] == a[..6];
    assert r[9..] == a[|a| - 4..];
  }

  /** The unit-test examples of `formatAddress`. */
  lemma FormatAddressExamples()
    ensures FormatAddress("0x1234567890abcdef1234567890abcdef12345678") == "0x1234...5678"
    ensures FormatAddress("") == ""
  {
    var a := "0x1234567890abcdef1234567890abcdef12345678";
    assert |a| == 42;
    assert a[..6] == "0x1234" by {
      assert a[0] == '0' && a[1] == 'x' && a[2] == '1' && a[3] == '2' && a[4] == '3' && a[5] == '4';
    }
    assert a[38..] == "5678" by {
      assert a[38] == '5' && a[39] == '6' && a[40] == '7' && a[41] == '8';
    }
  }

  /** `calculateWinRate(wins, losses)`: 0 with no games, otherwise the
      percentage of wins rounded to the nearest integer, halves upwards
      (`Math.round`), computed exactly on integers. */
  function WinRate(wins: nat, losses: nat): (r: nat)
    ensures r <= 100
    ensures wins + losses == 0 ==> r == 0
    ensures wins + losses > 0 ==>
      var total := wins + losses;
      (2 * r - 1) * total <= 200 * wins < (2 * r + 1) * total
  {
    var total := wins + losses;
    if total == 0 then 0
    else
      var r := (200 * wins + total) / (2 * total);
      RoundingBounds(wins, total, r);
      r
  }

  /** The rounded quotient of `200 * wins + total` by `2 * total` brackets the
      exact percentage and cannot exceed 100 while `wins <= total`. */
  lemma RoundingBounds(wins: nat, total: nat, r: int)
    requires 0 < total && wins <= total && r == (200 * wins + total) / (2 * total)
    ensures 0 <= r <= 100
    ensures (2 * r - 1) * total <= 200 * wins < (2 * r + 1) * total
  {
    var n, d := 200 * wins + total, 2 * total;
    assert r * d + n % d == n;
    assert r * d == (2 * r) * total;
    MulMonotone(101, r, total);
  }

  /** The rounding is unique: any integer within half a percent of the exact
      rate, halves rounded up, is the reported rate. */
  lemma WinRateUnique(wins: nat, losses: nat, k: int)
    requires wins + losses > 0
    requires (2 * k - 1) * (wins + losses) <= 200 * wins < (2 * k + 1) * (wins + losses)
    ensures WinRate(wins, losses) == k
  {
    var r := WinRate(wins, losses);
    var total := wins + losses;
    if k < r {
      MulMonotone(2 * k + 1, 2 * r - 1, total);
    } else if r < k {
      MulMonotone(2 * r + 1, 2 * k - 1, total);
    }
  }

  /** The unit-test examples of `calculateWinRate`. */
  lemma WinRateExamples()
    ensures WinRate(5, 5) == 50
    ensures WinRate(1, 0) == 100
    ensures WinRate(0, 1) == 0
    ensures WinRate(0, 0) == 0
    ensures WinRate(1, 2) == 33
  {
  }
}
