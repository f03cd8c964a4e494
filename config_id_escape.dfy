/**
 * Config id escaping of Search API sorts: display plugin ids contain ':',
 * which config entity ids may not, so ':' is stored as '---'.
 */
module ConfigIdEscape {
  import opened Php

  /** `getEscapedConfigId`: every ':' becomes '---'. */
  function EscapedConfigId(original: string): (r: string)
    ensures ':' !in r
  {
    StrReplaceCharGone(original, ':', "---");
    StrReplace(original, ":", "---")
  }

  /** `getOriginalConfigId`: each non-overlapping '---', left to right, becomes ':'. */
  function OriginalConfigId(escaped: string): string {
    StrReplace(escaped, "---", ":")
  }

  /** An id without ':' is its own escaped form. */
  lemma EscapeWithoutColon(id: string)
    requires ':' !in id
    ensures EscapedConfigId(id) == id
  {
    forall i | 0 <= i <= |id| ensures !StartsWith(id[i..], ":") {
      if i < |id| {
        assert id[i..][..1] == [id[i]];
        assert id[i] in id;
      }
    }
    StrReplaceAbsent(id, ":", "---");
  }

  /** Escaping a ':' and the text after it. */
  lemma EscapeStep(id: string)
    requires id != []
    ensures EscapedConfigId(id) == (if id[0] == ':' then "---" else [id[0]]) + EscapedConfigId(id[1..])
  {
    assert id[..1] == [id[0]];
  }

  /** Unescaping text that starts with a character other than '-'. */
  lemma UnescapeNoDash(c: char, rest: string)
    requires c != '-'
    ensures OriginalConfigId([c] + rest) == [c] + OriginalConfigId(rest)
  {
    var s := [c] + rest;
    assert s[1..] == rest;
    if |s| >= 3 {
      assert s[..3][0] == c;
    } else {
      assert StrReplace(rest, "---", ":") == rest;
    }
  }

  /** Ids without '-' come back from escaping unchanged: what the pair is for. */
  lemma {:induction false} RoundTrip(id: string)
    requires '-' !in id
    ensures OriginalConfigId(EscapedConfigId(id)) == id
    decreases |id|
  {
    if id != [] {
      EscapeStep(id);
      assert '-' !in id[1..] by {
        forall c | c in id[1..] ensures c in id { }
      }
      RoundTrip(id[1..]);
      var tail := EscapedConfigId(id[1..]);
      if id[0] == ':' {
        var s := "---" + tail;
        assert s[..3] == "---" && s[3..] == tail;
      } else {
        assert id[0] in id;
        UnescapeNoDash(id[0], tail);
      }
      assert [id[0]] + id[1..] == id;
    }
  }

  /** With a '-' next to a ':' the round trip fails: "a-:" escapes to "a----", which unescapes to "a:-". */
  lemma DashBreaksRoundTrip()
    ensures EscapedConfigId("a-:") == "a----"
    ensures OriginalConfigId("a----") == "a:-"
  {
    EscapeStep("a-:");
    EscapeStep("-:");
    EscapeStep(":");
    assert "a-:"[1..] == "-:" && "-:"[1..] == ":" && ":"[1..] == "";
    var s := "a----";
    assert s[..3] != "---" by { assert s[..3][0] == 'a'; }
    assert s[1..] == "----";
    var t := "----";
    assert t[..3] == "---" && t[3..] == "-";
  }

  /** The display id used by the functional tests, and its stored form. */
  const TestDisplayId: string := "views_page" + ":" + "search_api_test_view__page_1"
  const TestEscapedId: string := "views_page" + "---" + "search_api_test_view__page_1"

  lemma ViewsPagePair()
    ensures EscapedConfigId(TestDisplayId) == TestEscapedId
    ensures OriginalConfigId(TestEscapedId) == TestDisplayId
  {
    var a, b := "views_page", "search_api_test_view__page_1";
    assert ':' !in a && '-' !in a;
    assert ':' !in b && '-' !in b;
    EscapeAround(a, b);
    assert '-' !in TestDisplayId;
    RoundTrip(TestDisplayId);
  }

  /** Escaping `a:b` for `a` and `b` without ':'. */
  lemma EscapeAround(a: string, b: string)
    requires ':' !in a && ':' !in b
    ensures EscapedConfigId(a + ":" + b) == a + "---" + b
    decreases |a|
  {
    if a == [] {
      var s := ":" + b;
      EscapeStep(s);
      assert s[1..] == b;
      EscapeWithoutColon(b);
    } else {
      var s := a + ":" + b;
      EscapeStep(s);
      assert s[0] == a[0] && s[1..] == a[1..] + ":" + b;
      assert ':' !in a[1..] by {
        forall c | c in a[1..] ensures c in a { }
      }
      EscapeAround(a[1..], b);
      assert a[0] in a;
    }
  }
}
