/** The page frame (src/components/layout/Layout.jsx): full-screen pages
    get neither the bars nor the default padding. */
module Layout {
  import opened Strings

  /** `isFullScreen`. */
  predicate IsFullScreen(pathname: string) {
    StartsWith(pathname, "/task/") || StartsWith(pathname, "/messages/") || StartsWith(pathname, "/worker/")
    || pathname == "/profile/edit" || pathname == "/welcome" || StartsWith(pathname, "/profile/public/")
  }

  /** `showNav`: both the title bar and the tab bar. */
  predicate ShowNav(pathname: string) {
    !IsFullScreen(pathname)
  }

  /** The classes the page body gets beside the fixed ones. */
  function Padding(pathname: string): (r: string)
    ensures r == "" <==> IsFullScreen(pathname)
  {
    if IsFullScreen(pathname) then "" else "px-5 pt-20 pb-24"
  }

  /** The lists are framed, a single conversation, task or worker is not,
      and neither are the profile editor and the welcome page. */
  lemma FullScreenRules(id: string)
    ensures ShowNav("/messages") && ShowNav("/workers") && ShowNav("/")
    ensures IsFullScreen("/messages/" + id) && IsFullScreen("/worker/" + id) && IsFullScreen("/task/" + id)
    ensures IsFullScreen("/profile/public/" + id)
    ensures IsFullScreen("/profile/edit") && IsFullScreen("/welcome")
    ensures ShowNav("/profile/me")
  {
    assert ("/messages/" + id)[..10] == "/messages/";
    assert ("/worker/" + id)[..8] == "/worker/";
    assert ("/task/" + id)[..6] == "/task/";
    assert ("/profile/public/" + id)[..16] == "/profile/public/";
    assert "/messages"[1] != "/task/"[1] && "/messages"[1] != "/worker/"[1];
    assert "/workers"[1] != "/task/"[1] && "/workers"[7] != "/worker/"[7];
    assert "/profile/me"[1] != "/task/"[1] && "/profile/me"[1] != "/worker/"[1];
    assert "/profile/me"[1] != "/messages/"[1] && "/profile/me"[9] != "/profile/edit"[9];
    assert "/profile/me" != "/welcome";
  }
}
