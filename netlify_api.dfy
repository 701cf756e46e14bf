/**
 * The serverless entry point: before an event is forwarded to the Express
 * application, its path loses the function's mount prefix and gains the
 * `/api` prefix the application routes under.
 */
module NetlifyApi {
  import opened Wrappers
  import opened Strings

  /** Where the hosting platform mounts the function. */
  const FunctionPrefix := "/.netlify/functions/api"

  /** The prefix the application's routes live under. */
  const ApiPrefix := "/api"

  /** The path after the two rewrites of the handler. */
  function Rewritten(path: string): (r: string)
    ensures StartsWith(r, ApiPrefix)
  {
    var p := if StartsWith(path, FunctionPrefix) then ReplaceFirst(path, FunctionPrefix, "") else path;
    if StartsWith(p, ApiPrefix) then p
    else
      var r := ApiPrefix + p;
      assert r[..|ApiPrefix|] == ApiPrefix;
      r
  }

  /** On a path that starts with the mount prefix, `replace` removes exactly that prefix. */
  lemma ReplaceRemovesPrefix(path: string)
    requires StartsWith(path, FunctionPrefix)
    ensures ReplaceFirst(path, FunctionPrefix, "") == path[|FunctionPrefix|..]
  {
    assert IndexOf(path, FunctionPrefix) == Some(0);
  }

  /** A mounted path is rewritten from what follows the mount prefix. */
  lemma MountedPath(path: string)
    requires StartsWith(path, FunctionPrefix)
    ensures var rest := path[|FunctionPrefix|..];
      Rewritten(path) == if StartsWith(rest, ApiPrefix) then rest else ApiPrefix + rest
  {
    ReplaceRemovesPrefix(path);
  }

  /** A path already under `/api` is left alone. */
  lemma ApiPathUnchanged(path: string)
    requires StartsWith(path, ApiPrefix)
    ensures Rewritten(path) == path
  {
    assert path[1] == 'a' && FunctionPrefix[1] == '.';
  }

  /** Any other path is put under `/api`. */
  lemma OtherPathPrefixed(path: string)
    requires !StartsWith(path, FunctionPrefix) && !StartsWith(path, ApiPrefix)
    ensures Rewritten(path) == ApiPrefix + path
  {
  }

  /** Rewriting a rewritten path changes nothing. */
  lemma RewriteIdempotent(path: string)
    ensures Rewritten(Rewritten(path)) == Rewritten(path)
  {
    ApiPathUnchanged(Rewritten(path));
  }

  /** The function's own root, with or without a trailing slash, is the application's root. */
  lemma MountRoot(root: string, slash: string)
    requires root == FunctionPrefix && slash == FunctionPrefix + "/"
    ensures Rewritten(root) == ApiPrefix
    ensures Rewritten(slash) == ApiPrefix + "/"
  {
    MountedPath(root);
    assert root[|FunctionPrefix|..] == "";
    MountedPath(slash);
    assert slash[|FunctionPrefix|..] == "/";
  }

  /** The event the platform hands to the function; the handler edits its path in place. */
  class NetlifyEvent {
    var path: string

    constructor(path: string)
      ensures this.path == path
    {
      this.path := path;
    }

    /** The path rewrite at the head of `handler`. */
    method RewritePath()
      modifies this
      ensures path == Rewritten(old(path))
      ensures StartsWith(path, ApiPrefix)
    {
      if StartsWith(path, FunctionPrefix) {
        path := ReplaceFirst(path, FunctionPrefix, "");
      }
      if !StartsWith(path, ApiPrefix) {
        path := ApiPrefix + path;
      }
    }
  }
}
