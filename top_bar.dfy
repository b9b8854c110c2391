/** The title bar (src/components/layout/TopBar.jsx): a title chosen from
    the path, with the logo next to the app's own name. */
module TopBar {
  import opened Strings

  /** `getTitle()`: exact paths first, then the prefixes in order, and the
      app's name for everything else. */
  function Title(path: string): string {
    if path == "/" then "SUNOMSI"
    else if path == "/auth" then "SIGN IN"
    else if StartsWith(path, "/workers") then "WORKERS"
    else if StartsWith(path, "/messages") then "MESSAGES"
    else if StartsWith(path, "/profile") then "PROFILE"
    else if StartsWith(path, "/notifications") then "ALERTS"
    else "SUNOMSI"
  }

  /** The logo is drawn beside the title 'SUNOMSI'. */
  predicate ShowLogo(path: string) {
    Title(path) == "SUNOMSI"
  }

  /** The app's name, and so the logo, shows on the feed and on every path
      none of the rules names; a section's pages, sub-pages included, carry
      the section's title. */
  lemma TitleRules(path: string, rest: string)
    ensures Title("/") == "SUNOMSI" && Title("/auth") == "SIGN IN"
    ensures Title("/workers" + rest) == "WORKERS"
    ensures Title("/messages" + rest) == "MESSAGES"
    ensures Title("/profile" + rest) == "PROFILE"
    ensures Title("/notifications" + rest) == "ALERTS"
    ensures ShowLogo(path) <==>
              path == "/" || (path != "/auth" && !StartsWith(path, "/workers") && !StartsWith(path, "/messages")
                              && !StartsWith(path, "/profile") && !StartsWith(path, "/notifications"))
  {
    assert ("/workers" + rest)[..8] == "/workers";
    assert ("/messages" + rest)[..9] == "/messages";
    assert ("/profile" + rest)[..8] == "/profile";
    assert ("/notifications" + rest)[..14] == "/notifications";
    assert "/workers" + rest != "/" && "/workers" + rest != "/auth" by {
      assert ("/workers" + rest)[1] == 'w';
    }
    assert "/messages" + rest != "/" && "/messages" + rest != "/auth" by {
      assert ("/messages" + rest)[1] == 'm';
    }
    assert !StartsWith("/messages" + rest, "/workers") by {
      assert ("/messages" + rest)[1] == 'm';
    }
    assert "/profile" + rest != "/" && "/profile" + rest != "/auth" by {
      assert ("/profile" + rest)[1] == 'p';
    }
    assert !StartsWith("/profile" + rest, "/workers") && !StartsWith("/profile" + rest, "/messages") by {
      assert ("/profile" + rest)[1] == 'p';
    }
    assert "/notifications" + rest != "/" && "/notifications" + rest != "/auth" by {
      assert ("/notifications" + rest)[1] == 'n';
    }
    assert !StartsWith("/notifications" + rest, "/workers") && !StartsWith("/notifications" + rest, "/messages")
           && !StartsWith("/notifications" + rest, "/profile") by {
      assert ("/notifications" + rest)[1] == 'n';
    }
  }

  /** A worker's page and a task page fall through to the app's name:
      '/worker/' does not start with '/workers'. */
  lemma FallThrough()
    ensures Title("/worker/7") == "SUNOMSI"
    ensures Title("/task/7") == "SUNOMSI"
  {
    assert "/worker/7"[..8] != "/workers" by { assert "/worker/7"[7] != "/workers"[7]; }
    assert "/worker/7"[..9] != "/messages" by { assert "/worker/7"[1] != "/messages"[1]; }
    assert "/worker/7"[..8] != "/profile" by { assert "/worker/7"[1] != "/profile"[1]; }
    assert "/worker/7" != "/" && "/worker/7" != "/auth";
    assert "/task/7"[..7] != "/workers"[..7] by { assert "/task/7"[1] != "/workers"[1]; }
    assert "/task/7" != "/" && "/task/7" != "/auth";
    assert !StartsWith("/task/7", "/workers") && !StartsWith("/task/7", "/messages") && !StartsWith("/task/7", "/profile");
  }
}
