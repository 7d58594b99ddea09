/** The OctoPrint-compatible upload server's own state: the G-code
    post-processing switches an API key turns on (`argumentsFromApi`, applied
    only to keys longer than five characters) and the upload counters
    (`stats.addSuccess`, `stats.addFailure`). The HTTP server itself is not
    modelled. */
module OctoPrint {
  import opened Text
  import opened Utils
  import opened Wrappers

  /** The keywords an API key may carry, in the order their arguments are
      logged. */
  const Keywords: seq<string> := ["notrim", "nopreheat", "noshutoff", "noreinforcetower", "noreplacetool"]

  /** The command-line style arguments for the keywords of `kws` that occur
      in `key`, in the order of `kws`. */
  function Selected(kws: seq<string>, key: string): (args: seq<string>)
    ensures |args| <= |kws|
  {
    if |kws| == 0 then []
    else (if Contains(key, kws[0]) then ["-" + kws[0]] else []) + Selected(kws[1..], key)
  }

  /** An argument is logged exactly when its keyword occurs in the key. */
  lemma {:induction false} SelectedExactly(kws: seq<string>, key: string, k: nat)
    requires k < |kws|
    requires forall i, j | 0 <= i < j < |kws| :: kws[i] != kws[j]
    ensures "-" + kws[k] in Selected(kws, key) <==> Contains(key, kws[k])
    decreases |kws|
  {
    var head := if Contains(key, kws[0]) then ["-" + kws[0]] else [];
    assert Selected(kws, key) == head + Selected(kws[1..], key);
    if k == 0 {
      if !Contains(key, kws[0]) {
        SelectedOnlyFrom(kws[1..], key, kws[0]);
      }
    } else {
      SelectedExactly(kws[1..], key, k - 1);
      assert kws[1..][k - 1] == kws[k];
      assert ("-" + kws[k] == "-" + kws[0]) ==> kws[k] == kws[0] by {
        if "-" + kws[k] == "-" + kws[0] {
          assert kws[k] == ("-" + kws[k])[1..];
        }
      }
    }
  }

  /** Only keywords of the list are ever logged. */
  lemma {:induction false} SelectedOnlyFrom(kws: seq<string>, key: string, w: string)
    requires w !in kws
    ensures "-" + w !in Selected(kws, key)
    decreases |kws|
  {
    if |kws| > 0 {
      SelectedOnlyFrom(kws[1..], key, w);
      assert "-" + w != "-" + kws[0] by {
        assert ("-" + w)[1..] == w;
        assert ("-" + kws[0])[1..] == kws[0];
      }
    }
  }

  /** The line `argumentsFromApi` logs, when it logs one. */
  function LogLine(args: seq<string>): (line: string)
    requires |args| > 0
  {
    "SMFix with args: " + Join(args, ' ')
  }

  /** The package-level switches that steer G-code post-processing. */
  class Switches {
    var noTrim: bool
    var noPreheat: bool
    var noShutoff: bool
    var noReinforceTower: bool
    var noReplaceTool: bool

    constructor ()
      ensures !noTrim && !noPreheat && !noShutoff && !noReinforceTower && !noReplaceTool
    {
      noTrim, noPreheat, noShutoff, noReinforceTower, noReplaceTool := false, false, false, false, false;
    }

    /** Each switch is set from the key alone. */
    predicate SetFrom(key: string)
      reads this
    {
      && noTrim == Contains(key, "notrim")
      && noPreheat == Contains(key, "nopreheat")
      && noShutoff == Contains(key, "noshutoff")
      && noReinforceTower == Contains(key, "noreinforcetower")
      && noReplaceTool == Contains(key, "noreplacetool")
    }

    /** The assignments that open `argumentsFromApi`. */
    method SetSwitches(key: string)
      modifies this
      ensures SetFrom(key)
    {
      noTrim := Contains(key, "notrim");
      noPreheat := Contains(key, "nopreheat");
      noShutoff := Contains(key, "noshutoff");
      noReinforceTower := Contains(key, "noreinforcetower");
      noReplaceTool := Contains(key, "noreplacetool");
    }

    /** `argumentsFromApi`: every switch is overwritten with whether its
        keyword occurs in the key; `args` are the arguments logged, and
        nothing is logged when none is set. */
    method ArgumentsFromApi(key: string) returns (args: seq<string>)
      modifies this
      ensures SetFrom(key)
      ensures args == Selected(Keywords, key)
    {
      SetSwitches(key);
      Dashed();
      args := [];
      if noTrim {
        args := args + ["-notrim"];
      }
      assert args == Arg(noTrim, "notrim");
      if noPreheat {
        args := args + ["-nopreheat"];
      }
      assert args == Arg(noTrim, "notrim") + Arg(noPreheat, "nopreheat");
      if noShutoff {
        args := args + ["-noshutoff"];
      }
      assert args == Arg(noTrim, "notrim") + Arg(noPreheat, "nopreheat") + Arg(noShutoff, "noshutoff");
      if noReinforceTower {
        args := args + ["-noreinforcetower"];
      }
      assert args == Arg(noTrim, "notrim") + Arg(noPreheat, "nopreheat") + Arg(noShutoff, "noshutoff")
                     + Arg(noReinforceTower, "noreinforcetower");
      if noReplaceTool {
        args := args + ["-noreplacetool"];
      }
      assert args == Arg(noTrim, "notrim") + Arg(noPreheat, "nopreheat") + Arg(noShutoff, "noshutoff")
                     + Arg(noReinforceTower, "noreinforcetower") + Arg(noReplaceTool, "noreplacetool");
      SelectedUnrolled(key);
    }

    /** The upload handler's gate: only a key longer than five characters
        is parsed; a shorter one leaves the switches as they were. */
    method ApplyApiKey(key: string) returns (args: seq<string>)
      modifies this
      ensures |key| > 5 ==> SetFrom(key) && args == Selected(Keywords, key)
      ensures |key| <= 5 ==> args == [] && unchanged(this)
    {
      args := [];
      if |key| > 5 {
        args := ArgumentsFromApi(key);
      }
    }
  }

  /** The argument for keyword `w` when its switch is on. */
  function Arg(on: bool, w: string): seq<string>
  {
    if on then ["-" + w] else []
  }

  lemma Dashed()
    ensures "-" + "notrim" == "-notrim" && "-" + "nopreheat" == "-nopreheat"
    ensures "-" + "noshutoff" == "-noshutoff" && "-" + "noreinforcetower" == "-noreinforcetower"
    ensures "-" + "noreplacetool" == "-noreplacetool"
  {
  }

  lemma SelectedCons(kws: seq<string>, key: string)
    requires |kws| > 0
    ensures Selected(kws, key) == Arg(Contains(key, kws[0]), kws[0]) + Selected(kws[1..], key)
  {
  }

  lemma SelectedFive(a: string, b: string, c: string, d: string, e: string, key: string)
    ensures Selected([a, b, c, d, e], key)
            == Arg(Contains(key, a), a) + (Arg(Contains(key, b), b) + (Arg(Contains(key, c), c)
             + (Arg(Contains(key, d), d) + (Arg(Contains(key, e), e) + []))))
  {
    var k0 := [a, b, c, d, e];
    var k1 := [b, c, d, e];
    var k2 := [c, d, e];
    var k3 := [d, e];
    var k4 := [e];
    assert k0[1..] == k1;
    assert k1[1..] == k2;
    assert k2[1..] == k3;
    assert k3[1..] == k4;
    assert k4[1..] == [];
    SelectedCons(k0, key);
    SelectedCons(k1, key);
    SelectedCons(k2, key);
    SelectedCons(k3, key);
    SelectedCons(k4, key);
  }

  lemma Regroup5<T>(a: seq<T>, b: seq<T>, c: seq<T>, d: seq<T>, e: seq<T>)
    ensures a + b + c + d + e == a + (b + (c + (d + (e + []))))
  {
  }

  lemma SelectedUnrolled(key: string)
    ensures Selected(Keywords, key)
            == Arg(Contains(key, "notrim"), "notrim") + Arg(Contains(key, "nopreheat"), "nopreheat")
             + Arg(Contains(key, "noshutoff"), "noshutoff") + Arg(Contains(key, "noreinforcetower"), "noreinforcetower")
             + Arg(Contains(key, "noreplacetool"), "noreplacetool")
  {
    SelectedFive("notrim", "nopreheat", "noshutoff", "noreinforcetower", "noreplacetool", key);
    Regroup5(Arg(Contains(key, "notrim"), "notrim"), Arg(Contains(key, "nopreheat"), "nopreheat"),
             Arg(Contains(key, "noshutoff"), "noshutoff"), Arg(Contains(key, "noreinforcetower"), "noreinforcetower"),
             Arg(Contains(key, "noreplacetool"), "noreplacetool"));
  }

  /** Go's `uint`, 64 bits on the supported platforms: adding one wraps
      around to zero at the top. */
  type uint = bv64

  /** The last upload of one kind: its normalized name and size. */
  datatype Last = Last(filename: string, size: int)

  /** The upload counters; a last upload is `None` (Go's nil `*last`) until
      the first upload of its kind. */
  class Stats {
    var success: uint
    var failure: uint
    var lastSuccess: Option<Last>
    var lastFailure: Option<Last>

    constructor ()
      ensures success == 0 && failure == 0
      ensures lastSuccess == None && lastFailure == None
    {
      success, failure := 0, 0;
      lastSuccess, lastFailure := None, None;
    }

    /** `addSuccess`: one more success, recorded under its normalized name;
        the failure side is untouched. */
    method AddSuccess(filename: string, size: int)
      modifies this
      ensures success == old(success) + 1
      ensures lastSuccess == Some(Last(NormalizedFilename(filename), size))
      ensures failure == old(failure) && lastFailure == old(lastFailure)
    {
      var last := Last(NormalizedFilename(filename), size);
      success := success + 1;
      lastSuccess := Some(last);
    }

    /** `addFailure`: the mirror image of `AddSuccess`. */
    method AddFailure(filename: string, size: int)
      modifies this
      ensures failure == old(failure) + 1
      ensures lastFailure == Some(Last(NormalizedFilename(filename), size))
      ensures success == old(success) && lastSuccess == old(lastSuccess)
    {
      var last := Last(NormalizedFilename(filename), size);
      failure := failure + 1;
      lastFailure := Some(last);
    }
  }
}
