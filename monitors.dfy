/** Monitor selection in main: every configured screen index is clamped to an existing
    monitor, the monitors in use are marked in need[] and counted in unique, and one
    window is created per marked monitor, in monitor order. */
module Monitors {
  import opened Config
  import Ini

  /** The clamp main applies to sc.screen: below 0 goes to monitor 0, past the last
      monitor goes to the last one, anything else is kept. */
  function ClampScreen(screen: int, monCount: int): (c: int)
    requires monCount >= 1
    ensures 0 <= c < monCount
    ensures 0 <= screen < monCount ==> c == screen
    ensures screen < 0 ==> c == 0
    ensures screen >= monCount ==> c == monCount - 1
  {
    var idx := if screen < 0 then 0 else screen;
    if idx >= monCount then monCount - 1 else idx
  }

  /** The clamped screen indices the configuration names. */
  function UsedScreens(cs: seq<ShapeConfig>, monCount: int): set<int>
    requires monCount >= 1
  {
    if |cs| == 0 then {} else UsedScreens(cs[..|cs| - 1], monCount) + {ClampScreen(cs[|cs| - 1].screen, monCount)}
  }

  /** The monitors that get a window: the used ones, or monitor 0 when nothing is used. */
  function Needed(cs: seq<ShapeConfig>, monCount: int): set<int>
    requires monCount >= 1
  {
    if |cs| == 0 then {0} else UsedScreens(cs, monCount)
  }

  /** Number of true entries of a flag list. */
  function CountTrue(flags: seq<bool>): (n: nat)
    ensures n <= |flags|
  {
    if |flags| == 0 then 0 else CountTrue(flags[..|flags| - 1]) + (if flags[|flags| - 1] then 1 else 0)
  }

  lemma UsedStep(cs: seq<ShapeConfig>, monCount: int, i: nat)
    requires monCount >= 1 && i < |cs|
    ensures UsedScreens(cs[..i + 1], monCount) == UsedScreens(cs[..i], monCount) + {ClampScreen(cs[i].screen, monCount)}
  {
    assert cs[..i + 1][..i] == cs[..i];
  }

  /** A screen index is used exactly when some configured shape names it (after the clamp). */
  lemma {:induction false} UsedScreensMembers(cs: seq<ShapeConfig>, monCount: int, x: int)
    requires monCount >= 1
    ensures x in UsedScreens(cs, monCount) <==> exists i :: 0 <= i < |cs| && ClampScreen(cs[i].screen, monCount) == x
  {
    if |cs| > 0 {
      var n := |cs| - 1;
      UsedScreensMembers(cs[..n], monCount, x);
      if x in UsedScreens(cs[..n], monCount) {
        var i :| 0 <= i < n && ClampScreen(cs[..n][i].screen, monCount) == x;
        assert cs[i] == cs[..n][i];
      } else {
        assert forall i :: 0 <= i < n ==> cs[..n][i] == cs[i];
      }
    }
  }

  /** flags[k] is set exactly for the members k of s. */
  predicate Marks(flags: seq<bool>, s: set<int>)
  {
    forall k :: 0 <= k < |flags| ==> (flags[k] <==> k in s)
  }

  /** Setting need[idx] marks one more monitor; unique grows exactly when it was unmarked. */
  lemma MarkStep(flags: seq<bool>, s: set<int>, idx: int)
    requires Marks(flags, s) && 0 <= idx < |flags|
    ensures Marks(flags[idx := true], s + {idx})
    ensures |s + {idx}| == |s| + (if flags[idx] then 0 else 1)
  {
    if flags[idx] {
      assert s + {idx} == s;
    } else {
      CardAddOne(s, idx);
    }
  }

  /** The need/unique pass: need[k] holds exactly for the monitors that get a window and
      unique is how many there are. */
  method MarkNeeded(cs: seq<ShapeConfig>, monCount: int) returns (need: seq<bool>, unique: int)
    requires monCount >= 1
    ensures |need| == monCount
    ensures Marks(need, Needed(cs, monCount))
    ensures unique == |Needed(cs, monCount)|
  {
    var flags := new bool[monCount](_ => false);
    unique := 0;
    var i := 0;
    while i < |cs|
      invariant 0 <= i <= |cs|
      invariant Marks(flags[..], UsedScreens(cs[..i], monCount))
      invariant unique == |UsedScreens(cs[..i], monCount)|
    {
      var idx := cs[i].screen;
      if idx < 0 {
        idx := 0;
      }
      if idx >= monCount {
        idx := monCount - 1;
      }
      ghost var before, used := flags[..], UsedScreens(cs[..i], monCount);
      UsedStep(cs, monCount, i);
      MarkStep(before, used, idx);
      if !flags[idx] {
        flags[idx] := true;
        unique := unique + 1;
      }
      assert flags[..] == before[idx := true];
      i := i + 1;
    }
    assert cs[..i] == cs;
    NeededNonEmpty(cs, monCount);
    if unique == 0 {
      flags[0] := true;
      unique := 1;
    }
    need := flags[..];
  }

  /** With at least one configured shape the fallback to monitor 0 is never taken, and in
      every case at least one monitor is needed. */
  lemma NeededNonEmpty(cs: seq<ShapeConfig>, monCount: int)
    requires monCount >= 1
    ensures |Needed(cs, monCount)| >= 1
    ensures |cs| >= 1 ==> Needed(cs, monCount) == UsedScreens(cs, monCount)
  {
  
  }

  /** load_ini never returns an empty list, so for what main reads the monitor-0 fallback
      never runs: the needed monitors are exactly the ones some configured shape uses. */
  lemma LoadedNeedsNoFallback(file: Ini.Option<seq<string>>, monCount: int)
    requires monCount >= 1
    ensures |Ini.Loaded(file)| >= 1
    ensures Needed(Ini.Loaded(file), monCount) == UsedScreens(Ini.Loaded(file), monCount)
  {
    Ini.LoadedShape(file);
    NeededNonEmpty(Ini.Loaded(file), monCount);
  }

  /** Every needed monitor exists. */
  lemma NeededInRange(cs: seq<ShapeConfig>, monCount: int)
    requires monCount >= 1
    ensures forall k :: k in Needed(cs, monCount) ==> 0 <= k < monCount
  {
    UsedInRange(cs, monCount);
  }

  lemma {:induction false} UsedInRange(cs: seq<ShapeConfig>, monCount: int)
    requires monCount >= 1
    ensures forall k :: k in UsedScreens(cs, monCount) ==> 0 <= k < monCount
  {
    if |cs| > 0 {
      UsedInRange(cs[..|cs| - 1], monCount);
    }
  }

  lemma CardAddOne(s: set<int>, x: int)
    requires x !in s
    ensures |s + {x}| == |s| + 1
  {
  }

  /** Counting the flags counts the set they mark. */
  lemma {:induction false} CountTrueIsCard(flags: seq<bool>, s: set<int>)
    requires Marks(flags, s)
    requires forall k :: k in s ==> 0 <= k < |flags|
    ensures CountTrue(flags) == |s|
  {
    if |flags| > 0 {
      var n := |flags| - 1;
      var pre, s' := flags[..n], s - {n};
      assert Marks(pre, s') by {
        forall k | 0 <= k < n
          ensures pre[k] <==> k in s'
        {
          assert pre[k] == flags[k];
        }
      }
      assert forall k :: k in s' ==> 0 <= k < n;
      CountTrueIsCard(pre, s');
      assert CountTrue(flags) == CountTrue(pre) + (if flags[n] then 1 else 0);
      if flags[n] {
        assert s == s' + {n};
        CardAddOne(s', n);
      } else {
        assert s == s';
      }
    } else {
      assert forall k :: k !in s;
      assert s == {};
    }
  }

  lemma CountTrueStep(flags: seq<bool>, m: nat)
    requires m < |flags|
    ensures CountTrue(flags[..m + 1]) == CountTrue(flags[..m]) + (if flags[m] then 1 else 0)
  {
    assert flags[..m + 1][..m] == flags[..m];
  }

  /** The window loop: walk the monitors in order and keep each needed one whose window
      could be created (created[m] stands for glfwCreateWindow succeeding). Windows come
      out in increasing monitor order, one per needed and created monitor, and there are
      at most as many as needed monitors, so scr.arr (sized unique) is never overrun. */
  method CreateWindows(need: seq<bool>, created: seq<bool>) returns (mons: seq<int>)
    requires |created| == |need|
    ensures forall a, b :: 0 <= a < b < |mons| ==> mons[a] < mons[b]
    ensures forall m :: m in mons <==> 0 <= m < |need| && need[m] && created[m]
    ensures |mons| <= CountTrue(need)
  {
    mons := [];
    var m := 0;
    while m < |need|
      invariant 0 <= m <= |need|
      invariant forall a, b :: 0 <= a < b < |mons| ==> mons[a] < mons[b]
      invariant forall a :: 0 <= a < |mons| ==> mons[a] < m
      invariant forall k :: k in mons <==> 0 <= k < m && need[k] && created[k]
      invariant |mons| <= CountTrue(need[..m])
    {
      CountTrueStep(need, m);
      if need[m] {
        if created[m] {
          mons := mons + [m];
        }
      }
      m := m + 1;
    }
    assert need[..m] == need;
  }

  /** The windows main creates number at most unique, and each sits on a needed monitor. */
  lemma WindowsWithinUnique(cs: seq<ShapeConfig>, monCount: int, need: seq<bool>, unique: int, mons: seq<int>)
    requires monCount >= 1 && |need| == monCount
    requires Marks(need, Needed(cs, monCount))
    requires unique == |Needed(cs, monCount)|
    requires |mons| <= CountTrue(need)
    ensures |mons| <= unique
  {
    NeededInRange(cs, monCount);
    CountTrueIsCard(need, Needed(cs, monCount));
  }
}
