/**
 * `fetchHostSigners` (main.go lines 133-157): the host-key path list is split
 * on ':', empty segments are skipped, and each path is read and parsed as a
 * private key in order; the first failure ends the load, returning the
 * signers gathered so far together with that error.
 *
 * Reading a file (`ioutil.ReadFile`) and parsing a key
 * (`gossh.ParsePrivateKey`) are the abstract partial functions `readFile` and
 * `parsePrivateKey`; file contents, signers and errors are abstract types.
 */
module HostKeys {
  import opened Wrappers
  import GoStrings

  /** The `(signers, err)` pair the function returns. */
  datatype Loaded<S, E> = Loaded(signers: seq<S>, err: Option<E>)

  /** Read one path and parse its contents, the read error taking precedence. */
  function ReadAndParse<B, S, E>(path: string, readFile: string -> Result<B, E>,
                                 parsePrivateKey: B -> Result<S, E>): Result<S, E>
  {
    match readFile(path)
    case Failure(e) => Failure(e)
    case Success(pemBytes) => parsePrivateKey(pemBytes)
  }

  /** What the loop produces from the remaining segments `paths`. */
  function LoadPaths<B, S, E>(paths: seq<string>, readFile: string -> Result<B, E>,
                              parsePrivateKey: B -> Result<S, E>): Loaded<S, E>
  {
    if paths == [] then Loaded([], None)
    else if paths[0] == "" then LoadPaths(paths[1..], readFile, parsePrivateKey)
    else match ReadAndParse(paths[0], readFile, parsePrivateKey)
      case Failure(e) => Loaded([], Some(e))
      case Success(signer) =>
        var rest := LoadPaths(paths[1..], readFile, parsePrivateKey);
        Loaded([signer] + rest.signers, rest.err)
  }

  /** The non-empty segments, in order. */
  function NonEmpty(paths: seq<string>): (ps: seq<string>)
    ensures |ps| <= |paths|
    ensures forall i :: 0 <= i < |ps| ==> ps[i] != "" && ps[i] in paths
  {
    if paths == [] then []
    else (if paths[0] == "" then [] else [paths[0]]) + NonEmpty(paths[1..])
  }

  /**
   * `r` is what loading the non-empty paths `ps` means, stated without the
   * loop: the signers are those of the first paths of `ps`, in order; no
   * error means every path loaded; an error is the failure of the very next
   * path.
   */
  ghost predicate Describes<B, S, E>(ps: seq<string>, r: Loaded<S, E>, readFile: string -> Result<B, E>,
                                     parsePrivateKey: B -> Result<S, E>)
  {
    && |r.signers| <= |ps|
    && (forall k :: 0 <= k < |r.signers| ==>
          ReadAndParse(ps[k], readFile, parsePrivateKey) == Success(r.signers[k]))
    && (r.err.None? <==> |r.signers| == |ps|)
    && (r.err.Some? ==>
          ReadAndParse(ps[|r.signers|], readFile, parsePrivateKey) == Failure(r.err.value))
  }

  lemma {:induction false} LoadPathsMeaning<B, S, E>(paths: seq<string>, readFile: string -> Result<B, E>,
                                                     parsePrivateKey: B -> Result<S, E>)
    ensures Describes(NonEmpty(paths), LoadPaths(paths, readFile, parsePrivateKey), readFile, parsePrivateKey)
  {
    if paths != [] {
      var tail := NonEmpty(paths[1..]);
      var rest := LoadPaths(paths[1..], readFile, parsePrivateKey);
      LoadPathsMeaning(paths[1..], readFile, parsePrivateKey);
      if paths[0] != "" {
        var ps := NonEmpty(paths);
        assert ps == [paths[0]] + tail;
        var step := ReadAndParse(paths[0], readFile, parsePrivateKey);
        if step.Success? {
          var r := LoadPaths(paths, readFile, parsePrivateKey);
          assert r == Loaded([step.value] + rest.signers, rest.err);
          forall k | 0 <= k < |r.signers|
            ensures ReadAndParse(ps[k], readFile, parsePrivateKey) == Success(r.signers[k])
          {
            if k > 0 {
              assert ps[k] == tail[k - 1] && r.signers[k] == rest.signers[k - 1];
            }
          }
          if r.err.Some? {
            assert ps[|r.signers|] == tail[|rest.signers|];
          }
        }
      }
    }
  }

  /** Empty segments change nothing: loading skips them. */
  lemma {:induction false} EmptySegmentsSkipped<B, S, E>(paths: seq<string>, readFile: string -> Result<B, E>,
                                                         parsePrivateKey: B -> Result<S, E>)
    ensures LoadPaths(paths, readFile, parsePrivateKey) == LoadPaths(NonEmpty(paths), readFile, parsePrivateKey)
  {
    if paths != [] {
      EmptySegmentsSkipped(paths[1..], readFile, parsePrivateKey);
      if paths[0] != "" {
        var ps := NonEmpty(paths);
        assert ps == [paths[0]] + NonEmpty(paths[1..]);
        assert ps != [] && ps[0] == paths[0] && ps[1..] == NonEmpty(paths[1..]);
        var step := ReadAndParse(paths[0], readFile, parsePrivateKey);
        var rest := LoadPaths(paths[1..], readFile, parsePrivateKey);
        if step.Success? {
          assert LoadPaths(ps, readFile, parsePrivateKey) == Loaded([step.value] + rest.signers, rest.err);
        }
      } else {
        assert NonEmpty(paths) == NonEmpty(paths[1..]);
      }
    }
  }

  /** A path list made only of separators has no non-empty segment. */
  lemma {:induction false} OnlySeparators(hostKeyFile: string)
    requires forall i :: 0 <= i < |hostKeyFile| ==> hostKeyFile[i] == ':'
    ensures NonEmpty(GoStrings.Split(hostKeyFile, ':')) == []
  {
    if hostKeyFile != [] {
      OnlySeparators(hostKeyFile[1..]);
      var segments := GoStrings.Split(hostKeyFile, ':');
      assert segments == [""] + GoStrings.Split(hostKeyFile[1..], ':');
      assert segments[1..] == GoStrings.Split(hostKeyFile[1..], ':');
    }
  }

  /**
   * The early return on an empty `HostKeyFile` agrees with the loop: an empty
   * list, or one made only of separators, loads no signer and no error.
   */
  lemma NoPathsNoSigners<B, S, E>(hostKeyFile: string, readFile: string -> Result<B, E>,
                                  parsePrivateKey: B -> Result<S, E>)
    requires forall i :: 0 <= i < |hostKeyFile| ==> hostKeyFile[i] == ':'
    ensures LoadPaths(GoStrings.Split(hostKeyFile, ':'), readFile, parsePrivateKey) == Loaded([], None)
  {
    var segments := GoStrings.Split(hostKeyFile, ':');
    LoadPathsMeaning(segments, readFile, parsePrivateKey);
    OnlySeparators(hostKeyFile);
  }

  /**
   * `fetchHostSigners(hostKeyFile)`. As in the source, the package-level
   * `HostKeyFile` (here `hostKeyFileGlobal`) is the one checked for emptiness and split; the
   * parameter `hostKeyFile` is not used.
   */
  method FetchHostSigners<B, S, E>(hostKeyFileGlobal: string, hostKeyFile: string,
                                   readFile: string -> Result<B, E>,
                                   parsePrivateKey: B -> Result<S, E>)
    returns (signers: seq<S>, err: Option<E>)
    ensures Loaded(signers, err) == LoadPaths(GoStrings.Split(hostKeyFileGlobal, ':'), readFile, parsePrivateKey)
    ensures hostKeyFileGlobal == "" ==> signers == [] && err == None
  {
    signers, err := [], None;
    if hostKeyFileGlobal == "" {
      return;
    }

    var lines := GoStrings.Split(hostKeyFileGlobal, ':');
    ghost var whole := LoadPaths(lines, readFile, parsePrivateKey);
    for i := 0 to |lines|
      invariant err == None
      invariant var rest := LoadPaths(lines[i..], readFile, parsePrivateKey);
        whole == Loaded(signers + rest.signers, rest.err)
    {
      assert lines[i..][1..] == lines[i + 1..];
      var line := lines[i];
      if line == "" {
        continue;
      }

      var pemBytes := readFile(line);
      if pemBytes.Failure? {
        return signers, Some(pemBytes.error);
      }

      var signer := parsePrivateKey(pemBytes.value);
      if signer.Failure? {
        return signers, Some(signer.error);
      }
      signers := signers + [signer.value];
    }
  }
}
