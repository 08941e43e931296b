/** The engines' query URL templates and the `%s` substitution that fills them. */
module QueryTemplates {
  import opened Common
  import opened FormEncoding

  // The QUERY_URL constant of each engine activity.
  const GOOGLE_LENS_QUERY_URL := "https://lens.google.com/uploadbyurl?url=%s"
  const SAUCENAO_QUERY_URL := "https://saucenao.com/search.php?url=%s"
  const YANDEX_QUERY_URL := "https://yandex.com/images/search?url=%s&rpt=imageview"
  const IQDB_QUERY_URL := "http://iqdb.org/?url=%s"
  const ASCII2D_QUERY_URL := "https://ascii2d.net/search/url/%s"
  const TRACEMOE_QUERY_URL := "https://trace.moe/?auto&url=%s"

  /** Kotlin's `template.replace("%s", value)`: every occurrence, left to right; the
      inserted text is not scanned again. */
  function Substitute(template: string, value: string): (r: string)
    ensures value == "%s" ==> r == template
    decreases |template|
  {
    if |template| < 2 then template
    else if template[0] == '%' && template[1] == 's' then value + Substitute(template[2..], value)
    else [template[0]] + Substitute(template[1..], value)
  }

  /** A template without a placeholder is left as it is. */
  lemma {:induction false} SubstituteNoPlaceholder(t: string, v: string)
    requires !ContainsPlaceholder(t)
    ensures Substitute(t, v) == t
    decreases |t|
  {
    if |t| >= 2 {
      SubstituteNoPlaceholder(t[1..], v);
    }
  }

  /** The first placeholder after a placeholder-free prefix is replaced, and scanning goes on
      after it. */
  lemma {:induction false} SubstituteFirst(p: string, q: string, v: string)
    requires !ContainsPlaceholder(p)
    ensures Substitute(p + "%s" + q, v) == p + v + Substitute(q, v)
    decreases |p|
  {
    var t := p + "%s" + q;
    if p == [] {
      assert t[2..] == q;
    } else {
      assert t[1..] == p[1..] + "%s" + q;
      assert !(t[0] == '%' && t[1] == 's') by {
        if |p| >= 2 { assert t[1] == p[1]; } else { assert t[1] == '%'; }
      }
      assert !ContainsPlaceholder(p[1..]) by {
        if |p| >= 2 { assert p[1..][0] == p[1]; }
      }
      assert Substitute(t, v) == [t[0]] + Substitute(t[1..], v);
      SubstituteFirst(p[1..], q, v);
      assert [p[0]] + p[1..] == p;
    }
  }

  /** A template with exactly one placeholder becomes its prefix, the value, its suffix. */
  lemma SubstituteSingle(p: string, q: string, v: string)
    requires !ContainsPlaceholder(p) && !ContainsPlaceholder(q)
    ensures Substitute(p + "%s" + q, v) == p + v + q
  {
    SubstituteFirst(p, q, v);
    SubstituteNoPlaceholder(q, v);
  }

  /** A text without any `%` holds no placeholder. */
  lemma {:induction false} NoPercentNoPlaceholder(s: string)
    requires '%' !in s
    ensures !ContainsPlaceholder(s)
    decreases |s|
  {
    if |s| >= 2 {
      assert s[0] != '%';
      assert '%' !in s[1..];
      NoPercentNoPlaceholder(s[1..]);
    }
  }

  /** `t` is `p`, one placeholder, `q`, and neither `p` nor `q` holds a `%`. */
  predicate SinglePlaceholder(t: string, p: string, q: string) {
    t == p + "%s" + q && '%' !in p && '%' !in q
  }

  /** Filling a single-placeholder template puts the value between its prefix and suffix. */
  lemma FillSinglePlaceholder(t: string, p: string, q: string, v: string)
    requires SinglePlaceholder(t, p, q)
    ensures Substitute(t, v) == p + v + q
  {
    NoPercentNoPlaceholder(p);
    NoPercentNoPlaceholder(q);
    SubstituteSingle(p, q, v);
  }

  // Each engine's template has exactly one placeholder; the filled URL is the template's
  // prefix, the subject, its suffix, whatever the subject contains.

  lemma GoogleLensTemplate()
    ensures SinglePlaceholder(GOOGLE_LENS_QUERY_URL, "https://lens.google.com/uploadbyurl?url=", "")
  {
  }

  lemma GoogleLensQueryUrl(v: string)
    ensures Substitute(GOOGLE_LENS_QUERY_URL, v) == "https://lens.google.com/uploadbyurl?url=" + v
  {
    GoogleLensTemplate();
    FillSinglePlaceholder(GOOGLE_LENS_QUERY_URL, "https://lens.google.com/uploadbyurl?url=", "", v);
  }

  lemma SauceNaoTemplate()
    ensures SinglePlaceholder(SAUCENAO_QUERY_URL, "https://saucenao.com/search.php?url=", "")
  {
  }

  lemma SauceNaoQueryUrl(v: string)
    ensures Substitute(SAUCENAO_QUERY_URL, v) == "https://saucenao.com/search.php?url=" + v
  {
    SauceNaoTemplate();
    FillSinglePlaceholder(SAUCENAO_QUERY_URL, "https://saucenao.com/search.php?url=", "", v);
  }

  lemma YandexTemplate()
    ensures SinglePlaceholder(YANDEX_QUERY_URL, "https://yandex.com/images/search?url=", "&rpt=imageview")
  {
  }

  lemma YandexQueryUrl(v: string)
    ensures Substitute(YANDEX_QUERY_URL, v) == "https://yandex.com/images/search?url=" + v + "&rpt=imageview"
  {
    YandexTemplate();
    FillSinglePlaceholder(YANDEX_QUERY_URL, "https://yandex.com/images/search?url=", "&rpt=imageview", v);
  }

  lemma IqdbTemplate()
    ensures SinglePlaceholder(IQDB_QUERY_URL, "http://iqdb.org/?url=", "")
  {
  }

  lemma IqdbQueryUrl(v: string)
    ensures Substitute(IQDB_QUERY_URL, v) == "http://iqdb.org/?url=" + v
  {
    IqdbTemplate();
    FillSinglePlaceholder(IQDB_QUERY_URL, "http://iqdb.org/?url=", "", v);
  }

  lemma Ascii2dTemplate()
    ensures SinglePlaceholder(ASCII2D_QUERY_URL, "https://ascii2d.net/search/url/", "")
  {
  }

  lemma Ascii2dQueryUrl(v: string)
    ensures Substitute(ASCII2D_QUERY_URL, v) == "https://ascii2d.net/search/url/" + v
  {
    Ascii2dTemplate();
    FillSinglePlaceholder(ASCII2D_QUERY_URL, "https://ascii2d.net/search/url/", "", v);
  }

  lemma TraceMoeTemplate()
    ensures SinglePlaceholder(TRACEMOE_QUERY_URL, "https://trace.moe/?auto&url=", "")
  {
  }

  lemma TraceMoeQueryUrl(v: string)
    ensures Substitute(TRACEMOE_QUERY_URL, v) == "https://trace.moe/?auto&url=" + v
  {
    TraceMoeTemplate();
    FillSinglePlaceholder(TRACEMOE_QUERY_URL, "https://trace.moe/?auto&url=", "", v);
  }

  /** End to end for SauceNAO: a shared `scheme://host/path` subject made of unreserved
      parts opens `https://saucenao.com/search.php?url=scheme%3A%2F%2Fhost%2Fpath`. */
  lemma SauceNaoSimpleUrl(scheme: string, host: string, path: string)
    requires AllUnreserved(scheme) && AllUnreserved(host) && AllUnreserved(path)
    ensures Substitute(SAUCENAO_QUERY_URL, FormEncode(scheme + "://" + host + "/" + path)) ==
            "https://saucenao.com/search.php?url=" + (scheme + "%3A%2F%2F" + host + "%2F" + path)
  {
    EncodeSimpleUrl(scheme, host, path);
    SauceNaoQueryUrl(scheme + "%3A%2F%2F" + host + "%2F" + path);
  }
}
