/** Unique local names for the files of a device list (`_unique_file_name`, `_device_list_mounts`). */
module FileNames {
  import opened Strings

  /** The position of the last dot that is neither the first nor the last character; else the length. */
  function SuffixAt(name: string, k: nat): (i: nat)
    requires k <= |name|
    ensures i <= |name|
  {
    if k == 0 then |name|
    else if name[k - 1] == '.' then (if 0 < k - 1 < |name| - 1 then k - 1 else |name|)
    else SuffixAt(name, k - 1)
  }

  function Stem(name: string): string {
    name[..SuffixAt(name, |name|)]
  }

  function Suffix(name: string): string {
    name[SuffixAt(name, |name|)..]
  }

  function Candidate(name: string, idx: nat): string {
    Stem(name) + "_" + Dec(idx) + Suffix(name)
  }

  lemma {:induction false} SuffixAtStays(name: string, k: nat, j: nat)
    requires j <= k <= |name| && forall i | j <= i < k :: name[i] != '.'
    ensures SuffixAt(name, k) == SuffixAt(name, j)
    decreases k
  {
    if j < k {
      SuffixAtStays(name, k - 1, j);
    }
  }

  /** The suffix begins with the last dot, which is neither the first nor the last character; the stem is what
      stands before it. */
  lemma SuffixIsLast(stem: string, ending: string)
    requires stem != [] && ending != [] && '.' !in ending
    ensures Stem(stem + "." + ending) == stem && Suffix(stem + "." + ending) == "." + ending
  {
    var name := stem + "." + ending;
    forall i | |stem| + 1 <= i < |name| ensures name[i] != '.' {
      assert name[i] == ending[i - |stem| - 1];
    }
    SuffixAtStays(name, |name|, |stem| + 1);
    assert name[|stem|] == '.';
  }

  /** A candidate keeps stem and suffix, with an underscore and its number in between. */
  lemma CandidateKeepsSuffix(stem: string, ending: string, idx: nat)
    requires stem != [] && ending != [] && '.' !in ending
    ensures Candidate(stem + "." + ending, idx) == stem + "_" + Dec(idx) + "." + ending
  {
    SuffixIsLast(stem, ending);
    assert stem + "_" + Dec(idx) + ("." + ending) == stem + "_" + Dec(idx) + "." + ending;
  }

  /** Without a dot, or with none but the first or a last one, there is no suffix. */
  lemma CandidateWithoutSuffix(name: string, idx: nat)
    requires (forall i | 0 < i < |name| :: name[i] != '.') || (name != [] && name[|name| - 1] == '.')
    ensures Stem(name) == name && Candidate(name, idx) == name + "_" + Dec(idx)
  {
    if name == [] || name[|name| - 1] != '.' {
      SuffixAtStays(name, |name|, if name == [] then 0 else 1);
    }
    assert SuffixAt(name, |name|) == |name|;
    assert name + "_" + Dec(idx) + [] == name + "_" + Dec(idx);
  }

  lemma CandidatesDiffer(name: string, i: nat, j: nat)
    requires Candidate(name, i) == Candidate(name, j)
    ensures i == j
  {
    var head, tail := Stem(name) + "_", Suffix(name);
    var c, d := Candidate(name, i), Candidate(name, j);
    assert c[|head|..|c| - |tail|] == Dec(i) && d[|head|..|d| - |tail|] == Dec(j);
    DecInjective(i, j);
  }

  /** Candidates 1 to `n`. */
  function Candidates(name: string, n: nat): set<string> {
    if n == 0 then {} else Candidates(name, n - 1) + {Candidate(name, n)}
  }

  lemma {:induction false} CandidateIsNew(name: string, m: nat, n: nat)
    requires m < n
    ensures Candidate(name, n) !in Candidates(name, m)
  {
    if m > 0 {
      CandidateIsNew(name, m - 1, n);
      if Candidate(name, m) == Candidate(name, n) {
        CandidatesDiffer(name, m, n);
      }
    }
  }

  lemma {:induction false} CandidatesCount(name: string, n: nat)
    ensures |Candidates(name, n)| == n
  {
    if n > 0 {
      CandidatesCount(name, n - 1);
      CandidateIsNew(name, n - 1, n);
    }
  }

  lemma {:induction false} CandidatesTaken(name: string, used: set<string>, n: nat)
    requires forall i | 1 <= i <= n :: Candidate(name, i) in used
    ensures Candidates(name, n) <= used
  {
    if n > 0 {
      CandidatesTaken(name, used, n - 1);
    }
  }

  lemma {:induction false} SubsetSize(a: set<string>, b: set<string>)
    requires a <= b
    ensures |a| <= |b|
    decreases |a|
  {
    if x :| x in a {
      SubsetSize(a - {x}, b - {x});
    }
  }

  /** Only as many candidates can be taken as there are used names. */
  lemma TakenAreFew(name: string, used: set<string>, n: nat)
    requires forall i | 1 <= i <= n :: Candidate(name, i) in used
    ensures n <= |used|
  {
    CandidatesCount(name, n);
    CandidatesTaken(name, used, n);
    SubsetSize(Candidates(name, n), used);
  }

  /** What the search ends with: the name itself if it is free, else the first free candidate. */
  ghost predicate FirstFree(name: string, used: set<string>, r: string) {
    if name !in used then r == name
    else exists i | 1 <= i :: r == Candidate(name, i) && r !in used && forall j | 1 <= j < i :: Candidate(name, j) in used
  }

  /** The set of names that the loop over the devices shares with each call. */
  class UsedNames {
    var names: set<string>

    constructor ()
      ensures names == {}
    {
      names := {};
    }

    /** `_unique_file_name`: the loop ends because the candidates are different names. */
    method UniqueFileName(fileName: string) returns (r: string)
      modifies this
      ensures FirstFree(fileName, old(names), r)
      ensures r !in old(names) && names == old(names) + {r}
    {
      if fileName !in names {
        names := names + {fileName};
        return fileName;
      }
      var idx := 1;
      var candidate := Candidate(fileName, idx);
      while candidate in names
        invariant 1 <= idx <= |names| + 1 && candidate == Candidate(fileName, idx) && names == old(names)
        invariant forall j | 1 <= j < idx :: Candidate(fileName, j) in names
        decreases |names| - idx
      {
        TakenAreFew(fileName, names, idx);
        idx := idx + 1;
        candidate := Candidate(fileName, idx);
        if candidate in names { TakenAreFew(fileName, names, idx); }
      }
      assert FirstFree(fileName, old(names), candidate);
      names := names + {candidate};
      r := candidate;
    }
  }

  function ToSet(s: seq<string>): set<string> {
    set x | x in s
  }

  /** Each device gets its own file name, or the first free candidate, given the names before it. */
  ghost predicate Assigned(devices: seq<string>, locals: seq<string>) {
    |locals| == |devices| && forall k | 0 <= k < |locals| :: FirstFree(devices[k], ToSet(locals[..k]), locals[k])
  }

  /** The naming loop of `_device_list_mounts`: every device gets a name of its own, whatever the names
      look like. */
  method NameDevices(devices: seq<string>) returns (locals: seq<string>)
    ensures Assigned(devices, locals)
    ensures forall i, j | 0 <= i < j < |locals| :: locals[i] != locals[j]
  {
    var used := new UsedNames();
    locals := [];
    for k := 0 to |devices|
      invariant |locals| == k && fresh(used) && used.names == ToSet(locals)
      invariant Assigned(devices[..k], locals)
      invariant forall i, j | 0 <= i < j < k :: locals[i] != locals[j]
    {
      var r := used.UniqueFileName(devices[k]);
      AssignedNext(devices, locals, r, k);
      locals := locals + [r];
    }
    assert devices[..|devices|] == devices;
  }

  lemma AssignedNext(devices: seq<string>, locals: seq<string>, r: string, k: nat)
    requires k < |devices| && Assigned(devices[..k], locals) && FirstFree(devices[k], ToSet(locals), r)
    ensures Assigned(devices[..k + 1], locals + [r])
    ensures ToSet(locals + [r]) == ToSet(locals) + {r}
  {
    var after := locals + [r];
    forall i | 0 <= i < |after| ensures FirstFree(devices[..k + 1][i], ToSet(after[..i]), after[i]) {
      assert after[..i] == locals[..i];
      if i < k {
        assert FirstFree(devices[..k][i], ToSet(locals[..i]), locals[i]);
      } else {
        assert locals[..i] == locals;
      }
    }
  }
}
