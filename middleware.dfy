/**
 * The request-interception rule that sends `/request/{id}/edit` to
 * `/request/{id}/edit-fixed`.
 *
 * The rule matches the pathname against the regular expression
 * `^\/request\/(.+)\/edit$`. `MatchEditPath` runs that expression the way a
 * backtracking engine does: after the literal prefix, `.+` first takes the
 * longest run of characters other than line terminators, then gives them
 * back one at a time until `\/edit$` matches the rest of the input. Its
 * contract states the resulting shape test in closed form.
 */
module EditRedirect {
  import opened Wrappers

  const Prefix: string := "/request/"
  const Suffix: string := "/edit"
  const FixedSuffix: string := "/edit-fixed"

  /** The characters the regular-expression `.` does not match. */
  predicate IsLineTerminator(c: char) {
    c == '\n' || c == '\r' || c == '\U{2028}' || c == '\U{2029}'
  }

  /** The paths the rule redirects: the prefix, then one or more characters none of which is a line terminator, then the suffix at the very end. */
  predicate IsEditPath(path: string) {
    && |path| > |Prefix| + |Suffix|
    && path[..|Prefix|] == Prefix
    && path[|path| - |Suffix|..] == Suffix
    && forall k :: |Prefix| <= k < |path| - |Suffix| ==> !IsLineTerminator(path[k])
  }

  /** Where the greedy `.+` starting at `i` stops: the first line terminator at or after `i`, or the end. */
  function DotRunEnd(path: string, i: nat): (e: nat)
    requires i <= |path|
    ensures i <= e <= |path|
    ensures forall k :: i <= k < e ==> !IsLineTerminator(path[k])
    ensures e == |path| || IsLineTerminator(path[e])
    decreases |path| - i
  {
    if i == |path| || IsLineTerminator(path[i]) then i else DotRunEnd(path, i + 1)
  }

  /**
   * Backtracking of `.+`: try to match `\/edit$` at `j`, then at `j - 1`, and
   * so on, while the group keeps at least one character. The capture is the
   * text from the end of the prefix up to the first position that matches.
   */
  function Backtrack(path: string, j: nat): (m: Option<string>)
    requires |Prefix| <= j <= |path|
    ensures m == if |Prefix| < |path| - |Suffix| <= j && path[|path| - |Suffix|..] == Suffix
                 then Some(path[|Prefix|..|path| - |Suffix|]) else None
    decreases j
  {
    if j == |Prefix| then None
    else if path[j..] == Suffix then Some(path[|Prefix|..j])
    else Backtrack(path, j - 1)
  }

  /**
   * `pathname.match(editUrlPattern)`, giving capture group 1 on a match: it
   * matches exactly the edit paths, and the id is everything between the
   * prefix and the final suffix.
   */
  function MatchEditPath(path: string): (m: Option<string>)
    ensures m.Some? <==> IsEditPath(path)
    ensures m.Some? ==> m.value == path[|Prefix|..|path| - |Suffix|]
  {
    if |path| >= |Prefix| && path[..|Prefix|] == Prefix then
      var e := DotRunEnd(path, |Prefix|);
      assert IsEditPath(path) ==> |path| - |Suffix| <= e;
      Backtrack(path, e)
    else None
  }

  /** What the rule does with a request. */
  datatype Action = Redirect(location: string) | Next

  /** `middleware`: redirect an edit path to its fixed counterpart, pass everything else through. */
  function Middleware(path: string): (action: Action)
    ensures action.Redirect? <==> IsEditPath(path)
    ensures action.Redirect? ==> action.location == Prefix + path[|Prefix|..|path| - |Suffix|] + FixedSuffix
  {
    match MatchEditPath(path)
    case Some(id) => Redirect(Prefix + id + FixedSuffix)
    case None => Next
  }

  /** The path the dashboard's Edit link points at for a request id: prefix, id, suffix. */
  function EditPath(id: string): (path: string)
    ensures |path| == |Prefix| + |id| + |Suffix|
    ensures path[..|Prefix|] == Prefix
    ensures path[|Prefix|..|path| - |Suffix|] == id
    ensures path[|path| - |Suffix|..] == Suffix
  {
    Prefix + id + Suffix
  }

  /** The edit link of an id is redirected exactly when the id is non-empty and free of line terminators. */
  lemma EditPathRedirect(id: string)
    ensures Middleware(EditPath(id)) ==
            if id != [] && forall k :: 0 <= k < |id| ==> !IsLineTerminator(id[k])
            then Redirect(Prefix + id + FixedSuffix) else Next
  {
  }

  /** A matched path is the edit link of its captured id. */
  lemma MatchInvertsEditPath(path: string)
    requires MatchEditPath(path).Some?
    ensures EditPath(MatchEditPath(path).value) == path
  {
  }

  /** The redirect target never matches again, so the rule cannot loop. */
  lemma NoRedirectLoop(path: string)
    requires Middleware(path).Redirect?
    ensures Middleware(Middleware(path).location) == Next
  {
    var target := Middleware(path).location;
    var id := path[|Prefix|..|path| - |Suffix|];
    assert target == Prefix + id + FixedSuffix;
    assert target[|target| - 1] == 'd';
    assert target[|target| - |Suffix|..][|Suffix| - 1] != Suffix[|Suffix| - 1];
  }

  /** An empty id is not an id: "/request//edit" passes through. */
  lemma EmptyIdPassesThrough()
    ensures Middleware("/request//edit") == Next
  {
  }

  /** The capture runs to the last "/edit": "/request/a/edit/edit" has id "a/edit". */
  lemma NestedEditSuffix()
    ensures MatchEditPath("/request/a/edit/edit") == Some("a/edit")
    ensures Middleware("/request/a/edit/edit") == Redirect("/request/a/edit/edit-fixed")
  {
    var path := "/request/a/edit/edit";
    assert path[..|Prefix|] == Prefix;
    assert path[|path| - |Suffix|..] == Suffix;
    assert path[|Prefix|..|path| - |Suffix|] == "a/edit";
  }

  /** A line break inside the id defeats `.`, so such a path passes through. */
  lemma LineBreakInIdPassesThrough()
    ensures Middleware("/request/a\nb/edit") == Next
  {
    var path := "/request/a\nb/edit";
    assert IsLineTerminator(path[10]);
  }
}
