/** Collision-free temporary names for the sessions that a restore moves out of the way. */
module BackupNames {
  import opened Wrappers

  function Digit(d: nat): char
    requires d < 10
  {
    ['0', '1', '2', '3', '4', '5', '6', '7', '8', '9'][d]
  }

  function Decimal(n: nat): (s: string)
    ensures s != []
  {
    if n < 10 then [Digit(n)] else Decimal(n / 10) + [Digit(n % 10)]
  }

  lemma {:induction false} DecimalInjective(a: nat, b: nat)
    requires Decimal(a) == Decimal(b)
    ensures a == b
  {
    var s, t := Decimal(a), Decimal(b);
    assert s[|s| - 1] == Digit(a % 10) && t[|t| - 1] == Digit(b % 10);
    if a >= 10 && b >= 10 {
      assert Decimal(a / 10) == s[..|s| - 1] == t[..|t| - 1] == Decimal(b / 10);
      DecimalInjective(a / 10, b / 10);
    }
  }

  function Base(token: string, index: nat): string {
    "__tmux_recover_backup_" + token + "_" + Decimal(index)
  }

  /** The name tried after `suffix` collisions. */
  function Candidate(base: string, suffix: nat): string {
    if suffix == 0 then base else base + "_" + Decimal(suffix)
  }

  lemma CandidateInjective(base: string, a: nat, b: nat)
    requires Candidate(base, a) == Candidate(base, b)
    ensures a == b
  {
    assert a > 0 ==> |Candidate(base, a)| > |base|;
    assert b > 0 ==> |Candidate(base, b)| > |base|;
    if a > 0 && b > 0 {
      var stem := base + "_";
      assert Decimal(a) == Candidate(base, a)[|stem|..];
      assert Decimal(b) == Candidate(base, b)[|stem|..];
      DecimalInjective(a, b);
    }
  }

  ghost function Candidates(base: string, count: nat): (names: set<string>)
    ensures forall i | 0 <= i < count :: Candidate(base, i) in names
    ensures forall n | n in names :: exists i :: 0 <= i < count && Candidate(base, i) == n
  {
    if count == 0 then {} else Candidates(base, count - 1) + {Candidate(base, count - 1)}
  }

  lemma {:induction false} CandidatesSize(base: string, count: nat)
    ensures |Candidates(base, count)| == count
  {
    if count > 0 {
      CandidatesSize(base, count - 1);
      if Candidate(base, count - 1) in Candidates(base, count - 1) {
        var i :| 0 <= i < count - 1 && Candidate(base, i) == Candidate(base, count - 1);
        CandidateInjective(base, i, count - 1);
      }
    }
  }

  /** With every candidate below `count` taken, there are at least `count` taken names. */
  lemma TakenBound(base: string, count: nat, reserved: set<string>)
    requires forall i | 0 <= i < count :: Candidate(base, i) in reserved
    ensures count <= |reserved|
  {
    CandidatesSize(base, count);
    SubsetSize(Candidates(base, count), reserved);
  }

  /** Takes the first candidate nobody uses, within one try more than there are reserved names. */
  method FreeName(reserved: set<string>, base: string) returns (name: string, ghost suffix: nat)
    ensures name !in reserved && name == Candidate(base, suffix)
    ensures suffix <= |reserved|
    ensures forall i | 0 <= i < suffix :: Candidate(base, i) in reserved
  {
    name := base;
    var next: nat := 1;
    suffix := 0;
    while name in reserved
      invariant next == suffix + 1 && name == Candidate(base, suffix)
      invariant forall i | 0 <= i < suffix :: Candidate(base, i) in reserved
      decreases |reserved| + 1 - suffix
    {
      TakenBound(base, suffix + 1, reserved);
      name := base + "_" + Decimal(next);
      suffix, next := next, next + 1;
    }
    TakenBound(base, suffix, reserved);
  }

  /** The name is the first candidate that is not reserved. */
  ghost predicate FirstFree(name: string, base: string, reserved: set<string>) {
    name !in reserved && exists suffix :: TakenBelow(name, base, reserved, suffix)
  }

  ghost predicate TakenBelow(name: string, base: string, reserved: set<string>, suffix: nat) {
    name == Candidate(base, suffix) && forall i | 0 <= i < suffix :: Candidate(base, i) in reserved
  }

  ghost predicate AllFirstFree(names: seq<string>, token: string, reserved: set<string>) {
    forall k | 0 <= k < |names| :: FirstFree(names[k], Base(token, k), reserved + Elements(names[..k]))
  }

  /** One name per backup: pairwise distinct, none of them reserved before, and each the first that was free. */
  method FreeNames(token: string, count: nat, reserved0: set<string>) returns (names: seq<string>)
    ensures |names| == count && Distinct(names)
    ensures forall n | n in names :: n !in reserved0
    ensures AllFirstFree(names, token, reserved0)
  {
    hide AllFirstFree, FirstFree;
    NoNames(token, reserved0);
    names := [];
    var reserved := reserved0;
    for index := 0 to count
      invariant |names| == index && Distinct(names)
      invariant forall n | n in names :: n !in reserved0
      invariant reserved == reserved0 + Elements(names)
      invariant AllFirstFree(names, token, reserved0)
    {
      var name;
      ghost var suffix;
      name, suffix := FreeName(reserved, Base(token, index));
      FoundFree(names, name, token, reserved0, suffix);
      DistinctAppend(names, name);
      assert Elements(names + [name]) == Elements(names) + {name};
      reserved := reserved + {name};
      names := names + [name];
    }
  }

  lemma NoNames(token: string, reserved: set<string>)
    ensures AllFirstFree([], token, reserved)
  {
  }

  lemma FoundFree(names: seq<string>, name: string, token: string, reserved: set<string>, suffix: nat)
    requires AllFirstFree(names, token, reserved) && name !in reserved + Elements(names)
    requires TakenBelow(name, Base(token, |names|), reserved + Elements(names), suffix)
    ensures AllFirstFree(names + [name], token, reserved)
  {
    hide TakenBelow, Base;
    var more := names + [name];
    forall k | 0 <= k < |more| ensures FirstFree(more[k], Base(token, k), reserved + Elements(more[..k])) {
      if k < |names| {
        assert more[..k] == names[..k];
      } else {
        assert more[..k] == names;
      }
    }
  }
}
