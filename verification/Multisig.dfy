/** CHECKMULTISIG: the greedy pass finds an order-preserving assignment whenever there is one. */
module Multisig {
  import opened Bytes
  import opened Script
  import opened Interpreter
  import ScriptNum

  /** An order-preserving injection of signatures into keys under which every pair checks. */
  ghost predicate Assigns(env: Env, code: Bytes, sigs: seq<Bytes>, keys: seq<Bytes>, m: seq<nat>) {
    |m| == |sigs| &&
    (forall i :: 0 <= i < |m| ==> m[i] < |keys| && env.checker.checkSig(sigs[i], keys[m[i]], code, env.sigversion)) &&
    (forall i, j :: 0 <= i < j < |m| ==> m[i] < m[j])
  }

  ghost predicate Assignable(env: Env, code: Bytes, sigs: seq<Bytes>, keys: seq<Bytes>) {
    exists m :: Assigns(env, code, sigs, keys, m)
  }

  lemma {:induction false} TooManySignatures(env: Env, code: Bytes, sigs: seq<Bytes>, keys: seq<Bytes>, m: seq<nat>)
    requires Assigns(env, code, sigs, keys, m)
    ensures |sigs| <= |keys|
    ensures m != [] ==> |sigs| <= |keys| - m[0]
    decreases |sigs|
  {
    if m != [] { assert m[0] < |keys|; }
    if |m| > 1 {
      assert m[0] < m[1];
      assert forall i :: 0 <= i < |m| - 1 ==> m[1..][i] == m[i + 1] && sigs[1..][i] == sigs[i + 1];
      TooManySignatures(env, code, sigs[1..], keys, m[1..]);
    }
  }

  /** Drop the first key: an assignment that does not use it survives, shifted. */
  lemma DropKey(env: Env, code: Bytes, sigs: seq<Bytes>, keys: seq<Bytes>, m: seq<nat>)
    requires Assigns(env, code, sigs, keys, m) && keys != []
    requires m != [] ==> m[0] > 0
    ensures Assignable(env, code, sigs, keys[1..])
  {
    forall i | 0 <= i < |m| ensures m[i] > 0 { assert m[0] <= m[i]; }
    var m' := seq(|m|, i requires 0 <= i < |m| => m[i] - 1);
    assert Assigns(env, code, sigs, keys[1..], m');
  }

  lemma SkipKey(env: Env, code: Bytes, sigs: seq<Bytes>, keys: seq<Bytes>)
    requires keys != [] && Assignable(env, code, sigs, keys[1..])
    ensures Assignable(env, code, sigs, keys)
  {
    var m' :| Assigns(env, code, sigs, keys[1..], m');
    var m := seq(|m'|, i requires 0 <= i < |m'| => m'[i] + 1);
    assert Assigns(env, code, sigs, keys, m);
  }

  /** Use the first key for the first signature and a later key for every other one. */
  lemma UseKey(env: Env, code: Bytes, sigs: seq<Bytes>, keys: seq<Bytes>)
    requires keys != [] && sigs != [] && env.checker.checkSig(sigs[0], keys[0], code, env.sigversion)
    requires Assignable(env, code, sigs[1..], keys[1..])
    ensures Assignable(env, code, sigs, keys)
  {
    var m' :| Assigns(env, code, sigs[1..], keys[1..], m');
    var m := [0] + seq(|m'|, i requires 0 <= i < |m'| => m'[i] + 1);
    forall i | 0 <= i < |m|
      ensures m[i] < |keys| && env.checker.checkSig(sigs[i], keys[m[i]], code, env.sigversion)
    {
      if i > 0 { assert m[i] == m'[i - 1] + 1 && sigs[i] == sigs[1..][i - 1]; }
    }
    assert Assigns(env, code, sigs, keys, m);
  }

  lemma FirstKeyDecides(env: Env, code: Bytes, sigs: seq<Bytes>, keys: seq<Bytes>)
    requires sigs != [] && keys != [] && Assignable(env, code, sigs, keys)
    ensures var ok := env.checker.checkSig(sigs[0], keys[0], code, env.sigversion);
            Assignable(env, code, if ok then sigs[1..] else sigs, keys[1..])
  {
    var m :| Assigns(env, code, sigs, keys, m);
    if env.checker.checkSig(sigs[0], keys[0], code, env.sigversion) {
      assert forall i :: 0 <= i < |m| - 1 ==> m[1..][i] == m[i + 1] && sigs[1..][i] == sigs[i + 1];
      assert Assigns(env, code, sigs[1..], keys, m[1..]);
      DropKey(env, code, sigs[1..], keys, m[1..]);
    } else {
      DropKey(env, code, sigs, keys, m);
    }
  }

  /** The greedy pass is sound and complete: unless an encoding check it reaches refuses, it succeeds
      exactly when some order-preserving assignment exists. */
  lemma {:induction false} GreedyIsComplete(env: Env, code: Bytes, sigs: seq<Bytes>, keys: seq<Bytes>, checks: nat)
    requires |sigs| <= |keys|
    requires MatchSignatures(env, code, sigs, keys, checks).Matched?
    ensures MatchSignatures(env, code, sigs, keys, checks).success <==> Assignable(env, code, sigs, keys)
    decreases |keys|
  {
    if sigs == [] {
      assert Assigns(env, code, sigs, keys, []);
    } else {
      var ok := env.checker.checkSig(sigs[0], keys[0], code, env.sigversion);
      var rest := if ok then sigs[1..] else sigs;
      if Assignable(env, code, sigs, keys) { FirstKeyDecides(env, code, sigs, keys); }
      if |rest| > |keys| - 1 {
        if Assignable(env, code, rest, keys[1..]) {
          var m :| Assigns(env, code, rest, keys[1..], m);
          TooManySignatures(env, code, rest, keys[1..], m);
        }
      } else {
        GreedyIsComplete(env, code, rest, keys[1..], checks + 1);
        if Assignable(env, code, rest, keys[1..]) {
          if ok { UseKey(env, code, sigs, keys); } else { SkipKey(env, code, sigs, keys); }
        }
      }
    }
  }

  /** The encoding checks alone decide whether the pass is refused: with none failing it never is. */
  lemma {:induction false} CleanEncodingsMatch(env: Env, code: Bytes, sigs: seq<Bytes>, keys: seq<Bytes>, checks: nat)
    requires |sigs| <= |keys|
    requires forall i, j :: 0 <= i < |sigs| && 0 <= j < |keys| ==> EncodingError(env, sigs[i], keys[j]).None?
    ensures MatchSignatures(env, code, sigs, keys, checks).Matched?
    decreases |keys|
  {
    if sigs != [] {
      var rest := if env.checker.checkSig(sigs[0], keys[0], code, env.sigversion) then sigs[1..] else sigs;
      if |rest| <= |keys| - 1 {
        forall i, j | 0 <= i < |rest| && 0 <= j < |keys[1..]| ensures EncodingError(env, rest[i], keys[1..][j]).None? {
          assert rest[i] == sigs[i + |sigs| - |rest|] && keys[1..][j] == keys[j + 1];
        }
        CleanEncodingsMatch(env, code, rest, keys[1..], checks + 1);
      }
    }
  }

  // ----- Which pairs the pass tries -----

  /** As many signatures, from the first on, as can be assigned to these keys. */
  ghost predicate IsLongest(env: Env, code: Bytes, sigs: seq<Bytes>, keys: seq<Bytes>, i: nat) {
    i <= |sigs| && Assignable(env, code, sigs[..i], keys)
        && (i < |sigs| ==> !Assignable(env, code, sigs[..i + 1], keys))
  }

  /** Signature i is tried with key j: the keys before serve exactly the signatures before, and enough are left. */
  ghost predicate Tries(env: Env, code: Bytes, sigs: seq<Bytes>, keys: seq<Bytes>, i: nat, j: nat) {
    i < |sigs| && j < |keys| && IsLongest(env, code, sigs, keys[..j], i) && |sigs| - i <= |keys| - j
  }

  lemma FewerSignatures(env: Env, code: Bytes, sigs: seq<Bytes>, keys: seq<Bytes>, a: nat, b: nat)
    requires a <= b <= |sigs| && Assignable(env, code, sigs[..b], keys)
    ensures Assignable(env, code, sigs[..a], keys)
  {
    var m: seq<nat> :| Assigns(env, code, sigs[..b], keys, m);
    assert forall i :: 0 <= i < a ==> sigs[..a][i] == sigs[..b][i] && m[..a][i] == m[i];
    assert Assigns(env, code, sigs[..a], keys, m[..a]);
  }

  lemma MoreKeys(env: Env, code: Bytes, sigs: seq<Bytes>, keys: seq<Bytes>, n: nat)
    requires n <= |keys| && Assignable(env, code, sigs, keys[..n])
    ensures Assignable(env, code, sigs, keys)
  {
    var m: seq<nat> :| Assigns(env, code, sigs, keys[..n], m);
    assert forall j :: 0 <= j < n ==> keys[..n][j] == keys[j];
    assert Assigns(env, code, sigs, keys, m);
  }

  /** The last key serves the last signature, or is not needed. */
  lemma LastKeyDecides(env: Env, code: Bytes, sigs: seq<Bytes>, keys: seq<Bytes>)
    requires sigs != [] && keys != []
    ensures var i, n := |sigs| - 1, |keys| - 1;
            Assignable(env, code, sigs, keys) <==>
              Assignable(env, code, sigs, keys[..n])
              || (Assignable(env, code, sigs[..i], keys[..n])
                 && env.checker.checkSig(sigs[i], keys[n], code, env.sigversion))
  {
    var i, n := |sigs| - 1, |keys| - 1;
    if Assignable(env, code, sigs, keys) { WithoutLastKey(env, code, sigs, keys); }
    if Assignable(env, code, sigs, keys[..n]) { MoreKeys(env, code, sigs, keys, n); }
    if Assignable(env, code, sigs[..i], keys[..n]) && env.checker.checkSig(sigs[i], keys[n], code, env.sigversion) {
      WithLastKey(env, code, sigs, keys);
    }
  }

  lemma WithoutLastKey(env: Env, code: Bytes, sigs: seq<Bytes>, keys: seq<Bytes>)
    requires sigs != [] && keys != [] && Assignable(env, code, sigs, keys)
    ensures var i, n := |sigs| - 1, |keys| - 1;
            Assignable(env, code, sigs, keys[..n])
            || (Assignable(env, code, sigs[..i], keys[..n])
               && env.checker.checkSig(sigs[i], keys[n], code, env.sigversion))
  {
    var i, n := |sigs| - 1, |keys| - 1;
    assert forall j :: 0 <= j < n ==> keys[..n][j] == keys[j];
    var m: seq<nat> :| Assigns(env, code, sigs, keys, m);
    assert forall a :: 0 <= a < i ==> m[a] < m[i] && sigs[..i][a] == sigs[a];
    if m[i] < n { assert Assigns(env, code, sigs, keys[..n], m); }
    else { assert Assigns(env, code, sigs[..i], keys[..n], m[..i]); }
  }

  lemma WithLastKey(env: Env, code: Bytes, sigs: seq<Bytes>, keys: seq<Bytes>)
    requires sigs != [] && keys != []
    requires var i, n := |sigs| - 1, |keys| - 1;
             Assignable(env, code, sigs[..i], keys[..n]) && env.checker.checkSig(sigs[i], keys[n], code, env.sigversion)
    ensures Assignable(env, code, sigs, keys)
  {
    var i: nat, n: nat := |sigs| - 1, |keys| - 1;
    var m: seq<nat> :| Assigns(env, code, sigs[..i], keys[..n], m);
    var m' := m + [n];
    assert forall a :: 0 <= a < i ==> sigs[..i][a] == sigs[a] && m'[a] == m[a];
    assert forall j :: 0 <= j < n ==> keys[..n][j] == keys[j];
    assert Assigns(env, code, sigs, keys, m');
  }

  ghost function Longest(env: Env, code: Bytes, sigs: seq<Bytes>, keys: seq<Bytes>): (i: nat)
    ensures i <= |sigs|
    decreases |keys|
  {
    if keys == [] then 0 else
      var n := |keys| - 1;
      var i := Longest(env, code, sigs, keys[..n]);
      if i < |sigs| && env.checker.checkSig(sigs[i], keys[n], code, env.sigversion) then i + 1 else i
  }

  lemma {:induction false} LongestIsLongest(env: Env, code: Bytes, sigs: seq<Bytes>, keys: seq<Bytes>)
    ensures IsLongest(env, code, sigs, keys, Longest(env, code, sigs, keys))
    decreases |keys|
  {
    hide Assignable;
    if keys == [] {
      NothingAssigned(env, code, sigs);
    } else {
      var n := |keys| - 1;
      var i := Longest(env, code, sigs, keys[..n]);
      LongestIsLongest(env, code, sigs, keys[..n]);
      if i < |sigs| { PrefixStep(env, code, sigs, keys, i); }
      if i + 1 < |sigs| { PrefixStep(env, code, sigs, keys, i + 1); }
      if i == |sigs| { MoreKeys(env, code, sigs[..i], keys, n); }
      if i + 1 < |sigs| && Assignable(env, code, sigs[..i + 2], keys[..n]) {
        FewerSignatures(env, code, sigs, keys[..n], i + 1, i + 2);
      }
      if Assignable(env, code, sigs[..i], keys[..n]) { MoreKeys(env, code, sigs[..i], keys, n); }
    }
  }

  lemma NothingAssigned(env: Env, code: Bytes, sigs: seq<Bytes>)
    ensures IsLongest(env, code, sigs, [], 0)
  {
    assert Assigns(env, code, sigs[..0], [], []);
    if sigs != [] { NoKeys(env, code, sigs[..1]); }
  }

  lemma NoKeys(env: Env, code: Bytes, sigs: seq<Bytes>)
    requires sigs != []
    ensures !Assignable(env, code, sigs, [])
  {
    forall m: seq<nat> ensures !Assigns(env, code, sigs, [], m) {
      if |m| == |sigs| { assert m[0] >= 0; }
    }
  }

  lemma PrefixStep(env: Env, code: Bytes, sigs: seq<Bytes>, keys: seq<Bytes>, i: nat)
    requires i < |sigs| && keys != []
    ensures var n := |keys| - 1;
            Assignable(env, code, sigs[..i + 1], keys) <==>
              Assignable(env, code, sigs[..i + 1], keys[..n])
              || (Assignable(env, code, sigs[..i], keys[..n])
                 && env.checker.checkSig(sigs[i], keys[n], code, env.sigversion))
  {
    hide Assignable;
    LastKeyDecides(env, code, sigs[..i + 1], keys);
    assert sigs[..i + 1][..i] == sigs[..i];
  }

  lemma LongestIsUnique(env: Env, code: Bytes, sigs: seq<Bytes>, keys: seq<Bytes>, i: nat)
    ensures IsLongest(env, code, sigs, keys, i) <==> i == Longest(env, code, sigs, keys)
  {
    hide Assignable, Longest;
    LongestIsLongest(env, code, sigs, keys);
    var l := Longest(env, code, sigs, keys);
    if IsLongest(env, code, sigs, keys, i) {
      if i < l { FewerSignatures(env, code, sigs, keys, i + 1, l); }
      if l < i { FewerSignatures(env, code, sigs, keys, l + 1, i); }
    }
  }

  /** Each further key serves one more signature at most. */
  lemma {:induction false} LongestGrows(env: Env, code: Bytes, sigs: seq<Bytes>, keys: seq<Bytes>, a: nat, b: nat)
    requires a <= b <= |keys|
    ensures var la, lb := Longest(env, code, sigs, keys[..a]), Longest(env, code, sigs, keys[..b]);
            la <= lb <= la + (b - a)
    decreases b
  {
    if a < b {
      LongestGrows(env, code, sigs, keys, a, b - 1);
      assert keys[..b][..b - 1] == keys[..b - 1];
    }
  }

  /** From key j on, every pair that is tried is well encoded. */
  ghost predicate CleanFrom(env: Env, code: Bytes, sigs: seq<Bytes>, keys: seq<Bytes>, j: nat) {
    forall a: nat, b: nat :: j <= b && Tries(env, code, sigs, keys, a, b) ==> EncodingError(env, sigs[a], keys[b]).None?
  }

  lemma CleanStep(env: Env, code: Bytes, sigs: seq<Bytes>, keys: seq<Bytes>, i: nat, j: nat)
    requires j < |keys| && i == Longest(env, code, sigs, keys[..j]) && i < |sigs| && |sigs| - i <= |keys| - j
    ensures CleanFrom(env, code, sigs, keys, j)
            <==> EncodingError(env, sigs[i], keys[j]).None? && CleanFrom(env, code, sigs, keys, j + 1)
  {
    hide Longest, IsLongest, EncodingError;
    LongestIsUnique(env, code, sigs, keys[..j], i);
    assert Tries(env, code, sigs, keys, i, j);
    forall a: nat | Tries(env, code, sigs, keys, a, j) ensures a == i {
      LongestIsUnique(env, code, sigs, keys[..j], a);
    }
  }

  /** Past the point where signatures or keys run out, nothing is tried. */
  lemma NothingTried(env: Env, code: Bytes, sigs: seq<Bytes>, keys: seq<Bytes>, j: nat)
    requires j <= |keys|
    requires var i := Longest(env, code, sigs, keys[..j]); i == |sigs| || |sigs| - i > |keys| - j
    ensures CleanFrom(env, code, sigs, keys, j)
  {
    hide Longest, IsLongest, EncodingError;
    forall a: nat, b: nat | j <= b && Tries(env, code, sigs, keys, a, b) ensures false {
      LongestIsUnique(env, code, sigs, keys[..b], a);
      LongestGrows(env, code, sigs, keys, j, b);
    }
  }

  lemma {:induction false} MatchedFrom(env: Env, code: Bytes, sigs: seq<Bytes>, keys: seq<Bytes>, i: nat, j: nat,
                                       checks: nat)
    requires j <= |keys| && i == Longest(env, code, sigs, keys[..j]) && |sigs| - i <= |keys| - j
    ensures MatchSignatures(env, code, sigs[i..], keys[j..], checks).Matched? <==> CleanFrom(env, code, sigs, keys, j)
    decreases |keys| - j
  {
    hide CleanFrom, EncodingError;
    if i == |sigs| {
      NothingTried(env, code, sigs, keys, j);
    } else {
      CleanStep(env, code, sigs, keys, i, j);
      assert sigs[i..][0] == sigs[i] && keys[j..][0] == keys[j] && sigs[i..][1..] == sigs[i + 1..]
              && keys[j..][1..] == keys[j + 1..];
      assert keys[..j + 1][..j] == keys[..j];
      var i' := Longest(env, code, sigs, keys[..j + 1]);
      assert i' == if env.checker.checkSig(sigs[i], keys[j], code, env.sigversion) then i + 1 else i;
      if |sigs| - i' > |keys| - (j + 1) { NothingTried(env, code, sigs, keys, j + 1); }
      else { MatchedFrom(env, code, sigs, keys, i', j + 1, checks + 1); }
    }
  }

  /** The pass is refused exactly when a pair it tries is badly encoded. */
  lemma MatchedIff(env: Env, code: Bytes, sigs: seq<Bytes>, keys: seq<Bytes>, checks: nat)
    requires |sigs| <= |keys|
    ensures MatchSignatures(env, code, sigs, keys, checks).Matched?
            <==> forall i: nat, j: nat ::
                   Tries(env, code, sigs, keys, i, j) ==> EncodingError(env, sigs[i], keys[j]).None?
  {
    hide MatchSignatures, EncodingError, Tries;
    assert keys[..0] == [] && sigs[0..] == sigs && keys[0..] == keys;
    MatchedFrom(env, code, sigs, keys, 0, 0, checks);
  }

  /** Both multisig opcodes as a whole: a completed one read its two counts and consumed exactly keys +
      signatures + 3 elements; OP_CHECKMULTISIG pushed whether an assignment exists for the stripped code,
      and OP_CHECKMULTISIGVERIFY completes only if one does. */
  lemma MultisigMeaning(env: Env, op: byte, st: State) returns (nKeys: nat, nSigs: nat, code: Bytes)
    requires (op == OP_CHECKMULTISIG || op == OP_CHECKMULTISIGVERIFY) && st.codeStart <= |env.script|
    requires MultisigOp(env, op, st).Next?
    ensures nSigs <= nKeys <= MAX_PUBKEYS_PER_MULTISIG && nKeys + nSigs + 3 <= |st.stack|
    ensures nKeys == ScriptNum.Decode(Top(st.stack, 1)) && nSigs == ScriptNum.Decode(Top(st.stack, nKeys + 2))
    ensures StripSignatures(env, env.script[st.codeStart..], Slice(st.stack, nKeys + 3, nSigs)) == Some(code)
    ensures var found := Assignable(env, code, Slice(st.stack, nKeys + 3, nSigs), Slice(st.stack, 2, nKeys));
            (op == OP_CHECKMULTISIGVERIFY ==> found)
            && MultisigOp(env, op, st).st.stack
               == Below(st.stack, nKeys + nSigs + 3) + (if op == OP_CHECKMULTISIG then [Truth(found)] else [])
  {
    nKeys := ScriptNum.Decode(Top(st.stack, 1));
    nSigs := ScriptNum.Decode(Top(st.stack, nKeys + 2));
    var keys, sigs := Slice(st.stack, 2, nKeys), Slice(st.stack, nKeys + 3, nSigs);
    code := StripSignatures(env, env.script[st.codeStart..], sigs).value;
    hide Assignable, MatchSignatures, StripSignatures, ScriptNum.Decode;
    GreedyIsComplete(env, code, sigs, keys, st.sigChecks);
  }
}
