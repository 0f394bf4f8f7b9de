/**
 * The database URL the engine is created with: `DATABASE_URL` from the
 * environment, or a local SQLite file, with a Heroku-style `postgres://`
 * scheme rewritten to the `postgresql://` that the driver accepts.
 */
module Database {
  import opened Wrappers
  import opened PyStr

  const DefaultUrl := "sqlite:///tracker.db"
  const LegacyScheme := "postgres://"
  const Scheme := "postgresql://"

  /**
   * The rewrite: a URL starting with `postgres://` becomes `postgresql://`
   * followed by the untouched remainder; every other URL is kept.
   */
  function RewriteUrl(url: string): (r: string)
    ensures StartsWith(url, LegacyScheme) ==> r == Scheme + url[|LegacyScheme|..]
    ensures !StartsWith(url, LegacyScheme) ==> r == url
  {
    if StartsWith(url, LegacyScheme) then
      ReplaceFirst(url, LegacyScheme, Scheme)
    else
      url
  }

  /** The URL the engine uses, given the environment variable (if set). */
  function DbUrl(env: Option<string>): (r: string)
    ensures env.None? ==> r == DefaultUrl
    ensures env.Some? ==> r == RewriteUrl(env.value)
  {
    assert !StartsWith(DefaultUrl, LegacyScheme) by {
      assert DefaultUrl[0] != LegacyScheme[0];
    }
    RewriteUrl(env.GetOr(DefaultUrl))
  }

  /** The rewritten URL never starts with the legacy scheme. */
  lemma RewriteRemovesLegacyScheme(url: string)
    ensures !StartsWith(RewriteUrl(url), LegacyScheme)
  {
    if StartsWith(url, LegacyScheme) {
      assert RewriteUrl(url)[8] == 'q';
    }
  }

  /** Rewriting an already rewritten URL changes nothing. */
  lemma RewriteIdempotent(url: string)
    ensures RewriteUrl(RewriteUrl(url)) == RewriteUrl(url)
  {
    RewriteRemovesLegacyScheme(url);
  }
}
