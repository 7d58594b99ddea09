/** Small helpers: the file name shown to the printer (`normalizedFilename`)
    and the unit chosen when printing a size (`humanReadableSize`). */
module Utils {

  /** The characters `normalizedFilename` strips from the front of a name
      (the class `[./\\~]` of its anchored pattern). */
  predicate Stripped(c: char)
  {
    c == '.' || c == '/' || c == '\\' || c == '~'
  }

  /** `normalizedFilename`: removes the longest leading run of `.`, `/`,
      `\` and `~`, keeping everything from the first other character on. */
  function NormalizedFilename(name: string): string
    decreases |name|
  {
    if |name| > 0 && Stripped(name[0]) then NormalizedFilename(name[1..]) else name
  }

  /** The normalized name is a suffix of the name that does not start with a
      stripped character, and everything removed before it was stripped. */
  lemma {:induction false} NormalizedMeaning(name: string)
    ensures var r := NormalizedFilename(name);
            && |r| <= |name| && r == name[|name| - |r|..]
            && (r == [] || !Stripped(r[0]))
            && forall c | c in name[..|name| - |r|] :: Stripped(c)
    decreases |name|
  {
    if |name| > 0 && Stripped(name[0]) {
      NormalizedMeaning(name[1..]);
      var r := NormalizedFilename(name[1..]);
      assert name[1..][|name| - 1 - |r|..] == name[|name| - |r|..];
      assert name[..|name| - |r|] == [name[0]] + name[1..][..|name| - 1 - |r|];
    }
  }

  /** Normalizing twice changes nothing more than normalizing once. */
  lemma NormalizedIdempotent(name: string)
    ensures NormalizedFilename(NormalizedFilename(name)) == NormalizedFilename(name)
  {
  }

  /** The name is unchanged when it does not start with a stripped character,
      even if one occurs later (an inner `../` is kept). */
  lemma NormalizedKeepsPlainName(name: string)
    requires name == [] || !Stripped(name[0])
    ensures NormalizedFilename(name) == name
  {
  }

  /** The longest leading run is removed: the result is determined by the
      length of that run alone. */
  lemma {:induction false} NormalizedDropsRun(name: string, k: nat)
    requires k <= |name|
    requires forall i | 0 <= i < k :: Stripped(name[i])
    requires k == |name| || !Stripped(name[k])
    ensures NormalizedFilename(name) == name[k..]
    decreases k
  {
    if k > 0 {
      assert forall i | 0 <= i < k - 1 :: name[1..][i] == name[i + 1];
      NormalizedDropsRun(name[1..], k - 1);
      assert name[1..][k - 1..] == name[k..];
    }
  }

  /** 1024 to the power `n`. */
  function Pow1024(n: nat): (r: nat)
    ensures r >= 1
  {
    if n == 0 then 1 else 1024 * Pow1024(n - 1)
  }

  /** How `humanReadableSize` prints a size: `"%d B"` of the size itself, or
      `"%.1f %cB"` of `size / divisor` with the unit letter. */
  datatype Readable = InBytes(count: int) | Scaled(size: int, divisor: int, unit: char)

  const Units := "KMGTPE"

  lemma DivUnique(a: int, b: int, q: int, r: int)
    requires b > 0 && a == q * b + r && 0 <= r < b
    ensures a / b == q
  {
    var q0, r0 := a / b, a % b;
    assert (q - q0) * b == r0 - r by {
      assert q * b + r == q0 * b + r0;
      assert (q - q0) * b == q * b - q0 * b;
    }
    if q > q0 {
      MulAtLeast(q - q0, b);
    } else if q < q0 {
      MulAtLeast(q0 - q, b);
    }
  }

  lemma {:induction false} MulAtLeast(k: int, b: int)
    requires k >= 1 && b > 0
    ensures k * b >= b
    decreases k
  {
    if k > 1 {
      MulAtLeast(k - 1, b);
      assert k * b == (k - 1) * b + b;
    }
  }

  lemma Regroup(q2: int, r2: int, d: int, r: int)
    ensures (q2 * 1024 + r2) * d + r == q2 * (d * 1024) + (r2 * d + r)
  {
  }

  lemma RemainderBound(r2: int, d: int, r: int)
    requires 0 <= r2 < 1024 && d > 0 && 0 <= r < d
    ensures 0 <= r2 * d + r < d * 1024
  {
    assert r2 * d <= 1023 * d;
  }

  /** Dividing by `div` and then by 1024 is dividing by `div * 1024`. */
  lemma DivStep(size: int, div: int)
    requires size >= 0 && div > 0
    ensures size / div / 1024 == size / (div * 1024)
  {
    var q, r := size / div, size % div;
    var q2, r2 := q / 1024, q % 1024;
    Regroup(q2, r2, div, r);
    RemainderBound(r2, div, r);
    DivUnique(size, div * 1024, q2, r2 * div + r);
  }

  /** `humanReadableSize` on an int64 size: below 1024 the size in bytes,
      otherwise the largest power of 1024 not above the size (up to 1024^6,
      exabytes), which never overflows int64 and always has a unit letter. */
  method HumanReadableSize(size: int) returns (r: Readable)
    requires -0x8000_0000_0000_0000 <= size < 0x8000_0000_0000_0000
    ensures size < 1024 ==> r == InBytes(size)
    ensures size >= 1024 ==> exists exp | 0 <= exp <= 5 ::
              && r == Scaled(size, Pow1024(exp + 1), Units[exp])
              && 1 <= size / Pow1024(exp + 1) < 1024
  {
    if size < 1024 {
      return InBytes(size);
    }
    var div, exp := 1024, 0;
    var n := size / 1024;
    while n >= 1024
      invariant 0 <= exp <= 5
      invariant div == Pow1024(exp + 1)
      invariant n == size / div && n >= 1
      decreases n
    {
      DivStep(size, div);
      div := div * 1024;
      exp := exp + 1;
      n := n / 1024;
    }
    return Scaled(size, div, Units[exp]);
  }
}
