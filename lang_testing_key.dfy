/**
 * The hidden key code that switches the interface to the test language:
 * F7, F6, F7, F8 pressed consecutively (mainwindow.cpp, FeedLangTestingKey).
 * The source keeps the progress in a function-static counter `codeState`;
 * here it is a field of a small object, and a ghost field records every key
 * fed so far so that the counter can be related to the key history.
 */
module LangTestingKey {

  /** Qt key codes (Qt::Key_F6, Qt::Key_F7, Qt::Key_F8). */
  const KeyF6: int := 0x0100_0035
  const KeyF7: int := 0x0100_0036
  const KeyF8: int := 0x0100_0037

  /** The code, in the order it has to be typed. */
  const Code: seq<int> := [KeyF7, KeyF6, KeyF7, KeyF8]

  /**
   * The first step of a key press: the counter moves one place forward when
   * the key is the one the code expects next, and falls back to 0 otherwise
   * (no partial-match fallback: a stray F7 after F7 does not count as a new start).
   */
  function Advance(codeState: int, key: int): (next: int)
    ensures 0 <= codeState < |Code| && key == Code[codeState] ==> next == codeState + 1
    ensures !(0 <= codeState < |Code| && key == Code[codeState]) ==> next == 0
  {
    if (codeState == 0 && key == KeyF7)
      || (codeState == 1 && key == KeyF6)
      || (codeState == 2 && key == KeyF7)
      || (codeState == 3 && key == KeyF8)
    then codeState + 1
    else 0
  }

  /** The second step: a completed code is consumed and the counter starts over. */
  function Settle(next: int): (codeState: int)
    ensures 0 <= next <= 4 ==> 0 <= codeState <= 3
    ensures codeState == 0 || codeState == next
    ensures next != 4 ==> codeState == next
  {
    if next == 4 then 0 else next
  }

  /** The counter after feeding `keys`, one at a time, from the initial 0. */
  function Run(keys: seq<int>): (codeState: int)
    ensures 0 <= codeState <= 3
  {
    if keys == [] then 0
    else Settle(Advance(Run(keys[..|keys| - 1]), keys[|keys| - 1]))
  }

  /** Feeding the last key of `keys` completed the code. */
  predicate Fires(keys: seq<int>): (fired: bool)
    ensures fired ==> |keys| >= 1 && keys[|keys| - 1] == KeyF8 && Run(keys[..|keys| - 1]) == 3
  {
    keys != [] && Advance(Run(keys[..|keys| - 1]), keys[|keys| - 1]) == 4
  }

  lemma RunSnoc(keys: seq<int>, key: int)
    ensures Run(keys + [key]) == Settle(Advance(Run(keys), key))
    ensures Fires(keys + [key]) <==> Advance(Run(keys), key) == 4
  {
  }

  /** A non-zero counter means the last keys typed are exactly that many leading keys of the code. */
  lemma {:induction false} RunIsMatchedPrefix(keys: seq<int>)
    ensures Run(keys) <= |keys|
    ensures keys[|keys| - Run(keys)..] == Code[..Run(keys)]
  {
    if keys != [] {
      var init, key := keys[..|keys| - 1], keys[|keys| - 1];
      assert keys == init + [key];
      RunSnoc(init, key);
      RunIsMatchedPrefix(init);
      if Run(keys) > 0 {
        ExtendMatchedPrefix(init, key, Run(init));
      }
    }
  }

  /** The counter after the first i keys, from the counter after the first i - 1 of them. */
  lemma RunPrefixStep(keys: seq<int>, i: nat)
    requires 0 < i <= |keys|
    ensures Run(keys[..i]) == Settle(Advance(Run(keys[..i - 1]), keys[i - 1]))
    ensures i == |keys| ==> (Fires(keys) <==> Advance(Run(keys[..i - 1]), keys[i - 1]) == 4)
  {
    assert keys[..i][..i - 1] == keys[..i - 1];
    assert keys[..i] == keys ==> keys[..i - 1] == keys[..|keys| - 1];
  }

  /** A matched prefix of the code followed by the key it expects next is a longer matched prefix. */
  lemma ExtendMatchedPrefix(init: seq<int>, key: int, m: nat)
    requires m < |Code| && m <= |init| && key == Code[m]
    requires init[|init| - m..] == Code[..m]
    ensures (init + [key])[|init| + 1 - (m + 1)..] == Code[..m + 1]
  {
    assert (init + [key])[|init| - m..] == init[|init| - m..] + [key];
    assert Code[..m + 1] == Code[..m] + [Code[m]];
  }

  /**
   * The switch fires exactly when the last four keys fed are F7, F6, F7, F8
   * and the counter stood at 0 before the first of them.
   */
  lemma {:induction false} FiresIff(keys: seq<int>)
    ensures Fires(keys) <==>
      |keys| >= 4 && keys[|keys| - 4..] == Code && Run(keys[..|keys| - 4]) == 0
  {
    if |keys| >= 4 {
      var n := |keys|;
      RunPrefixStep(keys, n - 3);
      RunPrefixStep(keys, n - 2);
      RunPrefixStep(keys, n - 1);
      RunPrefixStep(keys, n);
      assert keys[n - 4..] == [keys[n - 4], keys[n - 3], keys[n - 2], keys[n - 1]];
    } else if keys != [] {
      var n := |keys|;
      var init := keys[..n - 1];
      assert keys == init + [keys[n - 1]];
      RunSnoc(init, keys[n - 1]);
      RunIsMatchedPrefix(init);
    }
  }

  /** When the switch fires, the last four keys fed were the code, and the counter is back to 0. */
  lemma FiresOnlyAfterCode(keys: seq<int>)
    requires Fires(keys)
    ensures |keys| >= 4 && keys[|keys| - 4..] == Code
    ensures Run(keys) == 0
  {
    FiresIff(keys);
  }

  /** Typing the whole code from a fresh counter always fires the switch. */
  lemma CodeFromRestFires(keys: seq<int>)
    requires Run(keys) == 0
    ensures Fires(keys + Code)
  {
    var all := keys + Code;
    assert all[..|all| - 4] == keys;
    assert all[|all| - 4..] == Code;
    FiresIff(all);
  }

  /** After F7 the code expects F6: a second F7 resets the counter to 0 instead of restarting at 1. */
  lemma RepeatedF7Resets(keys: seq<int>)
    requires Run(keys) == 1
    ensures Run(keys + [KeyF7]) == 0 && !Fires(keys + [KeyF7])
  {
  }

  /** The state of the recogniser: the source's static counter, and the keys fed so far. */
  class LangTestingCode {
    var codeState: int
    ghost var fed: seq<int>

    ghost predicate Valid()
      reads this
    {
      codeState == Run(fed)
    }

    constructor ()
      ensures Valid() && fed == [] && codeState == 0
    {
      codeState := 0;
      fed := [];
    }

    /**
     * Feeds one key press; the result says whether the test-language switch
     * is triggered by this press.  Between calls the counter stays in 0..3.
     */
    method Feed(key: int) returns (switchToTestLanguage: bool)
      requires Valid()
      modifies this
      ensures Valid() && fed == old(fed) + [key]
      ensures 0 <= codeState <= 3
      ensures switchToTestLanguage <==> Fires(fed)
    {
      if (codeState == 0 && key == KeyF7)
        || (codeState == 1 && key == KeyF6)
        || (codeState == 2 && key == KeyF7)
        || (codeState == 3 && key == KeyF8)
      {
        codeState := codeState + 1;
      } else {
        codeState := 0;
      }
      switchToTestLanguage := false;
      if codeState == 4 {
        codeState := 0;
        switchToTestLanguage := true;
      }
      RunSnoc(fed, key);
      fed := fed + [key];
    }
  }
}
