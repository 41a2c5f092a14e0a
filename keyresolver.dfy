/**
 * The line-splitting loop of `fetchGithubKeys` (main.go lines 46-50): the
 * fetched listing is split on "\n" and every line contributes exactly one
 * entry, the parsed key or nil when `ssh.ParseAuthorizedKey` fails.
 *
 * The HTTP request and the body read are not modelled: `contents` is the body
 * as received. The parser is the abstract function `parseAuthorizedKey`.
 */
module KeyResolver {
  import opened Wrappers
  import GoStrings
  import Authorization

  /** One entry per line of the listing, in order: the line's parse result. */
  ghost predicate OneEntryPerLine<K>(contents: string, parseAuthorizedKey: string -> Option<K>,
                               publicKeys: seq<Option<K>>)
  {
    var lines := GoStrings.Split(contents, '\n');
    |publicKeys| == |lines| &&
    forall i :: 0 <= i < |lines| ==> publicKeys[i] == parseAuthorizedKey(lines[i])
  }

  method FetchGithubKeys<K>(contents: string, parseAuthorizedKey: string -> Option<K>)
    returns (publicKeys: seq<Option<K>>)
    ensures |publicKeys| == GoStrings.Count(contents, '\n') + 1
    ensures OneEntryPerLine(contents, parseAuthorizedKey, publicKeys)
  {
    var lines := GoStrings.Split(contents, '\n');
    publicKeys := [];
    for i := 0 to |lines|
      invariant |publicKeys| == i
      invariant forall j :: 0 <= j < i ==> publicKeys[j] == parseAuthorizedKey(lines[j])
    {
      var allowed := parseAuthorizedKey(lines[i]);
      publicKeys := publicKeys + [allowed];
    }
  }

  /**
   * A key list laid out as `FetchGithubKeys` lays it out accepts a key exactly
   * when some line of the listing parses to a key equal to it.
   */
  lemma AcceptsSomeLine<K>(keysEqual: (K, K) -> bool, key: K, contents: string,
                           parseAuthorizedKey: string -> Option<K>, publicKeys: seq<Option<K>>)
    requires OneEntryPerLine(contents, parseAuthorizedKey, publicKeys)
    ensures Authorization.Accepts(keysEqual, key, publicKeys) <==>
      exists line :: line in GoStrings.Split(contents, '\n') &&
        Authorization.Matches(keysEqual, key, parseAuthorizedKey(line))
  {
    var lines := GoStrings.Split(contents, '\n');
    if exists line :: line in lines && Authorization.Matches(keysEqual, key, parseAuthorizedKey(line)) {
      var line :| line in lines && Authorization.Matches(keysEqual, key, parseAuthorizedKey(line));
      var i :| 0 <= i < |lines| && lines[i] == line;
      assert Authorization.Matches(keysEqual, key, publicKeys[i]);
    }
  }

  /**
   * A listing that ends in a newline (as the service's does) yields the
   * entries of the listing without it plus a final entry for the empty line.
   */
  lemma TrailingNewlineEntry<K>(body: string, parseAuthorizedKey: string -> Option<K>,
                                publicKeys: seq<Option<K>>)
    requires OneEntryPerLine(body + "\n", parseAuthorizedKey, publicKeys)
    ensures |publicKeys| >= 2 && publicKeys[|publicKeys| - 1] == parseAuthorizedKey("")
    ensures OneEntryPerLine(body, parseAuthorizedKey, publicKeys[..|publicKeys| - 1])
  {
    GoStrings.SplitTrailingSeparator(body, '\n');
  }
}
