/**
 * The request middleware: from the session token's role (if signed in) and the path,
 * decide whether to pass the request through or redirect it.
 */
module RouteGuard {
  import opened Results
  import opened Text

  datatype Decision = Next | Redirect(target: string)

  predicate IsAuthPage(path: string) { StartsWith(path, "/login") || StartsWith(path, "/register") }
  predicate IsCustomerPage(path: string) { StartsWith(path, "/customer") }
  predicate IsAdminPage(path: string) { StartsWith(path, "/admin") }

  /** The three areas are told apart by the path's second character. */
  lemma AreasDisjoint(path: string)
    ensures IsAuthPage(path) ==> !IsCustomerPage(path) && !IsAdminPage(path)
    ensures IsCustomerPage(path) ==> !IsAdminPage(path)
  {
    if IsCustomerPage(path) {
      assert path[1] == "/customer"[1] == 'c';
    }
    if StartsWith(path, "/login") {
      assert path[1] == 'l';
    }
    if StartsWith(path, "/register") {
      assert path[1] == 'r';
    }
    if IsAdminPage(path) {
      assert path[1] == 'a';
    }
  }

  /**
   * middleware(request); `token` is None when there is no session and otherwise
   * carries the token's role string.
   */
  function Guard(token: Option<string>, path: string): (d: Decision)
    // without a session, exactly the customer and admin areas send the visitor to /login
    ensures token.None? ==> (d.Redirect? <==> IsCustomerPage(path) || IsAdminPage(path))
    ensures token.None? && d.Redirect? ==> d.target == "/login"
    // a signed-in customer or admin on /login or /register goes to their dashboard
    ensures token == Some("CUSTOMER") && IsAuthPage(path) ==> d == Redirect("/customer/dashboard")
    ensures token == Some("ADMIN") && IsAuthPage(path) ==> d == Redirect("/admin/dashboard")
    // with a session, each area admits only its own role, and the others go home
    ensures token.Some? && IsCustomerPage(path) ==>
      (d == Next <==> token.value == "CUSTOMER") && (d != Next ==> d == Redirect("/"))
    ensures token.Some? && IsAdminPage(path) ==>
      (d == Next <==> token.value == "ADMIN") && (d != Next ==> d == Redirect("/"))
    // everything else passes through
    ensures !IsAuthPage(path) && !IsCustomerPage(path) && !IsAdminPage(path) ==> d == Next
    ensures token.None? && IsAuthPage(path) ==> d == Next
  {
    AreasDisjoint(path);
    if token.None? && (IsCustomerPage(path) || IsAdminPage(path)) then Redirect("/login")
    else if token.Some? && IsAuthPage(path) && token.value == "CUSTOMER" then Redirect("/customer/dashboard")
    else if token.Some? && IsAuthPage(path) && token.value == "ADMIN" then Redirect("/admin/dashboard")
    else if token.Some? && IsCustomerPage(path) && token.value != "CUSTOMER" then Redirect("/")
    else if token.Some? && IsAdminPage(path) && token.value != "ADMIN" then Redirect("/")
    else Next
  }

  /** Following a redirect never redirects again: the guard admits every target it sends to. */
  lemma NoRedirectLoop(token: Option<string>, path: string)
    requires Guard(token, path).Redirect?
    ensures Guard(token, Guard(token, path).target) == Next
  {
    var t := Guard(token, path).target;
    assert !StartsWith("/", "/login") && !StartsWith("/", "/customer") && !StartsWith("/", "/admin")
      && !StartsWith("/", "/register");
    assert !StartsWith("/login", "/customer") && !StartsWith("/login", "/admin")
      && !StartsWith("/login", "/register") by {
      assert "/login"[1] != "/customer"[1] && "/login"[1] != "/admin"[1] && "/login"[1] != "/register"[1];
    }
    assert StartsWith("/customer/dashboard", "/customer") by {
      assert "/customer/dashboard"[..9] == "/customer";
    }
    assert !StartsWith("/customer/dashboard", "/admin") && !StartsWith("/customer/dashboard", "/login")
      && !StartsWith("/customer/dashboard", "/register") by {
      assert "/customer/dashboard"[1] == 'c';
    }
    assert StartsWith("/admin/dashboard", "/admin") by {
      assert "/admin/dashboard"[..6] == "/admin";
    }
    assert !StartsWith("/admin/dashboard", "/customer") && !StartsWith("/admin/dashboard", "/login")
      && !StartsWith("/admin/dashboard", "/register") by {
      assert "/admin/dashboard"[1] == 'a';
    }
  }
}
