/** Root resolution: which candidate storage folders `getWeChatPaths`
    reports, in which order. */
module Roots {
  import opened FsTree
  import opened Seqs

  /** The three default locations the host computes from its home folder
      and environment: the desktop client's, the store client's and the new
      client's storage folders. */
  datatype DefaultRoots = DefaultRoots(normal: string, store: string, newVersion: string)

  /** The candidates in the order they are tried: the custom path when it
      is non-empty, then the three defaults when they are enabled. */
  function Candidates(customPath: string, useDefaultPaths: bool, defaults: DefaultRoots): (r: seq<string>)
    ensures |r| == (if customPath != "" then 1 else 0) + (if useDefaultPaths then 3 else 0)
    ensures customPath != "" ==> r[0] == customPath
    ensures useDefaultPaths ==> r[|r| - 3..] == [defaults.normal, defaults.store, defaults.newVersion]
  {
    (if customPath != "" then [customPath] else [])
    + (if useDefaultPaths then [defaults.normal, defaults.store, defaults.newVersion] else [])
  }

  /** The candidates `fs.access` accepts, in candidate order. */
  function Probe(fs: map<string, Node>, candidates: seq<string>): seq<string>
  {
    if candidates == [] then []
    else (if candidates[0] in fs then [candidates[0]] else []) + Probe(fs, candidates[1..])
  }

  /** The roots are exactly the existing candidates, kept in order. */
  lemma {:induction false} ProbeSpec(fs: map<string, Node>, candidates: seq<string>)
    ensures IsSubsequence(Probe(fs, candidates), candidates)
    ensures forall p :: p in Probe(fs, candidates) <==> p in candidates && p in fs
    decreases |candidates|
  {
    if candidates != [] {
      var rest := Probe(fs, candidates[1..]);
      ProbeSpec(fs, candidates[1..]);
      assert candidates == [candidates[0]] + candidates[1..];
      SubsequencePrepend(candidates[0], rest, candidates[1..]);
      if candidates[0] !in fs {
        assert Probe(fs, candidates) == [] + rest == rest;
      }
    }
  }

  /** Probing a concatenation probes each part in turn. */
  lemma {:induction false} ProbeAppend(fs: map<string, Node>, a: seq<string>, b: seq<string>)
    ensures Probe(fs, a + b) == Probe(fs, a) + Probe(fs, b)
    decreases |a|
  {
    if a == [] {
      assert a + b == b;
    } else {
      assert (a + b)[0] == a[0] && (a + b)[1..] == a[1..] + b;
      ProbeAppend(fs, a[1..], b);
    }
  }

  lemma ProbeOne(fs: map<string, Node>, p: string)
    ensures Probe(fs, [p]) == if p in fs then [p] else []
  {
    assert [p][1..] == [];
  }

  /** The one-candidate probe: `p` itself when it exists, otherwise nothing. */
  function Present(fs: map<string, Node>, p: string): seq<string>
  {
    if p in fs then [p] else []
  }

  /** Probing the three defaults keeps each one that exists, in order. */
  lemma ProbeDefaults(fs: map<string, Node>, d: DefaultRoots)
    ensures Probe(fs, [d.normal, d.store, d.newVersion]) ==
      (if d.normal in fs then [d.normal] else [])
      + (if d.store in fs then [d.store] else [])
      + (if d.newVersion in fs then [d.newVersion] else [])
  {
    assert [d.normal, d.store, d.newVersion] == [d.normal] + ([d.store] + [d.newVersion]);
    ProbeAppend(fs, [d.normal], [d.store] + [d.newVersion]);
    ProbeAppend(fs, [d.store], [d.newVersion]);
    ProbeOne(fs, d.normal);
    ProbeOne(fs, d.store);
    ProbeOne(fs, d.newVersion);
  }

  /** The roots, spelled out: each existing candidate in the fixed order. */
  lemma ProbeCandidates(fs: map<string, Node>, customPath: string, useDefaultPaths: bool, d: DefaultRoots)
    ensures Probe(fs, Candidates(customPath, useDefaultPaths, d)) ==
      (if customPath != "" then Present(fs, customPath) else [])
      + (if useDefaultPaths then Present(fs, d.normal) + Present(fs, d.store) + Present(fs, d.newVersion) else [])
  {
    var custom := if customPath != "" then [customPath] else [];
    var defaults := if useDefaultPaths then [d.normal, d.store, d.newVersion] else [];
    ProbeAppend(fs, custom, defaults);
    if customPath != "" {
      ProbeOne(fs, customPath);
    }
    ProbeDefaults(fs, d);
  }

  /** With the defaults switched off the result is at most the custom path. */
  lemma ProbeWithoutDefaults(fs: map<string, Node>, customPath: string, d: DefaultRoots)
    ensures Probe(fs, Candidates(customPath, false, d)) ==
      (if customPath != "" && customPath in fs then [customPath] else [])
  {
    ProbeCandidates(fs, customPath, false, d);
  }
}
