/**
 * The exceptions the router raises, as values. Messages follow the format
 * strings of src/RadixRouter.php.
 */
module RouterErrors {

  datatype Error =
    /** `generateUri` was given a name that no injected route carries. */
    | RouteNotFound(name: string)
    /** `generateUri` found required parameters without a substitution. */
    | MissingParameters(routeName: string, missing: seq<string>)
    /** The trie matcher's `add` refused a route path, with the trie's own
        message (for instance "Empty segments are not allowed"). */
    | InvalidPattern(path: string, reason: string)
    /** The cache directory did not exist and could not be created. */
    | CacheDirectoryNotCreatable(directory: string)
    /** The cache directory exists but is not writable. */
    | CacheDirectoryNotWritable(directory: string)
    /** `require` of the cache file threw, with PHP's message (the error
        handler suppresses warnings only). */
    | CacheFileUnloadable(file: string, reason: string)
    /** The trie reported a match for a handler name the index does not hold
        (PHP raises a TypeError when passing null to RouteResult::fromRoute). */
    | UnknownHandler(handler: string)
  {
    /** Errors raised while routes are injected into the trie matcher. */
    predicate IsInjectionError() {
      InvalidPattern? || CacheDirectoryNotCreatable? || CacheDirectoryNotWritable? || CacheFileUnloadable?
    }
  }

  /** PHP's `implode(sep, xs)`. */
  function Join(xs: seq<string>, sep: string): (r: string)
    ensures xs == [] ==> r == ""
    ensures |xs| == 1 ==> r == xs[0]
  {
    if xs == [] then ""
    else if |xs| == 1 then xs[0]
    else xs[0] + sep + Join(xs[1..], sep)
  }

  /** With two or more names, the separator goes between the last two and
      after every earlier one. */
  lemma {:induction false} JoinSnoc(xs: seq<string>, x: string, sep: string)
    requires xs != []
    ensures Join(xs + [x], sep) == Join(xs, sep) + sep + x
  {
    var ys := xs + [x];
    if |xs| == 1 {
      assert ys == [xs[0], x];
    } else {
      assert ys[0] == xs[0] && ys[1..] == xs[1..] + [x];
      JoinSnoc(xs[1..], x, sep);
      assert Join(ys, sep) == xs[0] + sep + (Join(xs[1..], sep) + sep + x);
    }
  }

  /** The exception message (for the two errors raised outside this
      repository, the trie matcher's and PHP's own wording). */
  function Message(e: Error): string {
    match e
    case RouteNotFound(name) =>
      "Cannot generate URI for route \"" + name + "\"; route not found"
    case MissingParameters(routeName, missing) =>
      "Cannot generate URI for route \"" + routeName + "\"; missing required parameters: " + Join(missing, ", ")
    case InvalidPattern(_, reason) =>
      reason
    case CacheDirectoryNotCreatable(dir) =>
      "Failed to create cache directory \"" + dir + "\""
    case CacheDirectoryNotWritable(dir) =>
      "Cache directory \"" + dir + "\" is not writable"
    case CacheFileUnloadable(_, reason) =>
      reason
    case UnknownHandler(handler) =>
      "Mezzio\\Router\\RouteResult::fromRoute(): Argument #1 ($route) must be of type Mezzio\\Router\\Route, null given"
  }
}
