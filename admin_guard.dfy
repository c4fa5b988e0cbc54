/** The admin route guard (src/components/AdminRoute.js): a total decision over
    the session's `loading` flag and `user`. */
module AdminGuard {
  import opened Wrappers
  import opened Session

  /** The four things the guard can render. */
  datatype View =
    | Spinner                            // waiting for the session to load
    | Redirect(to: string, replace: bool) // `<Navigate to=... replace />`
    | AccessDenied                       // the denial screen
    | RenderChildren                     // the protected page

  /** The guard's own admin test, `user.roles?.some(...)`: an absent `roles` yields
      `undefined`, which is falsy. */
  function GuardSeesAdmin(p: Profile): (r: bool)
    ensures r ==> p.roles.Some? && p.roles.value != []
  {
    match p.roles
    case None => false
    case Some(rs) => AnyEntryNamed(rs, AdminRole)
  }

  /** `AdminRoute`'s chain of early returns. */
  function Decide(loading: bool, user: Option<Profile>): (v: View)
    ensures loading <==> v == Spinner
    ensures v.Redirect? ==> v == Redirect(LoginPath, true) && user.None?
    ensures v == RenderChildren ==> user.Some?
  {
    if loading then Spinner
    else if user.None? then Redirect(LoginPath, true)
    else if !GuardSeesAdmin(user.value) then AccessDenied
    else RenderChildren
  }

  /** The guard re-implements the context's `isAdmin`, and the two agree on every user. */
  lemma GuardTestIsIsAdmin(p: Profile)
    ensures GuardSeesAdmin(p) == UserIsAdmin(Some(p))
  {
  }

  /** Each outcome happens exactly under its own condition; the four conditions are
      mutually exclusive and cover every input, so the guard is total. */
  lemma DecideOutcomes(loading: bool, user: Option<Profile>)
    ensures Decide(loading, user) == Spinner <==> loading
    ensures Decide(loading, user) == Redirect(LoginPath, true) <==> !loading && user.None?
    ensures Decide(loading, user) == AccessDenied <==> !loading && user.Some? && !UserIsAdmin(user)
    ensures Decide(loading, user) == RenderChildren <==> !loading && UserIsAdmin(user)
    ensures Decide(loading, user).Redirect? ==> Decide(loading, user) == Redirect(LoginPath, true)
  {
  }

  /** The protected page is rendered exactly for a loaded session whose user has a
      role entry named `admin`, in the nested or the flat shape. A user without
      `roles`, or with no such entry, gets the denial view and not a redirect. */
  lemma RenderIffAdminEntry(loading: bool, user: Option<Profile>)
    ensures Decide(loading, user) == RenderChildren <==>
      !loading && user.Some? && user.value.roles.Some? &&
      exists i :: 0 <= i < |user.value.roles.value| && EntryNamed(user.value.roles.value[i], AdminRole)
    ensures !loading && user.Some? && user.value.roles.None? ==> Decide(loading, user) == AccessDenied
  {
    if user.Some? && user.value.roles.Some? {
      AnyEntryNamedIff(user.value.roles.value, AdminRole);
    }
  }

  /** The guard as the page sees it: it reads the provider's `loading` and `user`
      and nothing else (in particular not the token). */
  function GuardFor(p: AuthProvider): (v: View)
    reads p`loading, p`user
    ensures p.loading ==> v == Spinner
  {
    Decide(p.loading, p.user)
  }
}
