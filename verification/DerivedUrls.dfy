/** The URLs an assignment derives from the backend setting, and what a rewrite of
    kiosk.conf, which rereads both, does to them. */
module DerivedUrls {
  import opened ConfigText
  import opened Heartbeat

  function Base(backend: string): string {
    TrimRight(backend, IsSlash)
  }

  /** What follows the backend in the derived URL; "" if a part of it is missing or the
      assignment asks for the legacy wall. */
  function Tail(a: Assignment): string {
    if a.Assigned? && a.mode == "signage" then
      var (s, k) := (Trim(a.slug, IsSlash), Trim(a.publicKey, IsSlash));
      if s == "" || k == "" then "" else "/" + s + "/beacon/d/" + k
    else if a.Assigned? && a.mode == "visitor" then
      var s := Trim(a.slug, IsSlash);
      if s == "" then "" else "/" + s + "/visitor-kiosk"
    else ""
  }

  /** The derived URL, or "". */
  function Url(backend: string, a: Assignment): string {
    if Base(backend) == "" || Tail(a) == "" then "" else Base(backend) + Tail(a)
  }

  /** The target that shows `url`. */
  function Showing(a: Assignment, url: string): Target {
    if url == "" then Target("legacy_wall", "", "")
    else if a.Assigned? && a.mode == "signage" then Target("signage", url, "")
    else Target("visitor", "", url)
  }

  lemma Regroup(a: string, b: string, c: string, d: string, e: string)
    ensures a + b + c + d == a + (b + c + d)
    ensures a + b + c + d + e == a + (b + c + d + e)
  {
  }

  lemma TargetShowsUrl(backend: string, a: Assignment)
    ensures TargetOf(backend, a) == Showing(a, Url(backend, a))
  {
    if a.Assigned? && a.mode == "signage" {
      Regroup(Base(backend), "/", Trim(a.slug, IsSlash), "/beacon/d/", Trim(a.publicKey, IsSlash));
    } else if a.Assigned? && a.mode == "visitor" {
      Regroup(Base(backend), "/", Trim(a.slug, IsSlash), "/visitor-kiosk", "");
    }
  }

  // ---- Quotes in a concatenation ----

  lemma HasQuoteConcat(a: string, b: string)
    ensures HasQuote(a + b) <==> HasQuote(a) || HasQuote(b)
  {
    if i :| 0 <= i < |a| && IsSingle(a[i]) {
      assert IsSingle((a + b)[i]);
    }
    if i :| 0 <= i < |b| && IsSingle(b[i]) {
      assert IsSingle((a + b)[|a| + i]);
    }
  }

  /** The backend is its base and slashes, so both have the same quotes. */
  lemma BaseAndSlashes(backend: string) returns (slashes: string)
    ensures backend == Base(backend) + slashes
    ensures (forall k | 0 <= k < |slashes| :: IsSlash(slashes[k])) && !HasQuote(slashes)
    ensures Base(backend) != "" ==> !IsSlash(Base(backend)[|Base(backend)| - 1])
    ensures HasQuote(backend) <==> HasQuote(Base(backend))
  {
    TrimRightSpec(backend, IsSlash);
    slashes := backend[|Base(backend)|..];
    HasQuoteConcat(Base(backend), slashes);
  }

  lemma TrimSlashes(x: string, slashes: string)
    requires x != "" && !IsSlash(x[|x| - 1]) && forall k | 0 <= k < |slashes| :: IsSlash(slashes[k])
    ensures Base(x + slashes) == x
  {
    TrimRightExact(x + slashes, IsSlash, |x|);
    assert (x + slashes)[..|x|] == x;
  }

  // ---- What a rewrite does ----

  /** A value with a quote, split in two: how its reread form splits. */
  lemma RereadConcat(a: string, b: string)
    requires HasQuote(a) && b != "" && !HasQuote(b)
    ensures |Escape(a)| >= |a| + 4 && !EndsQuoted(a + b)
    ensures Reread(a + b) == Middle(Escape(a), One(StartsQuoted(a)), 0) + b
  {
    var (e, l) := (Escape(a), One(StartsQuoted(a)));
    HasQuoteConcat(a, b);
    EscapeConcat(a, b);
    EscapeClean(b);
    EscapeLength(a);
    RereadGrows(a + b);
    assert (a + b)[|a + b| - 1] == b[|b| - 1];
    assert StartsQuoted(a + b) == StartsQuoted(a);
    DropFront(e, b, l);
  }

  lemma DropFront(e: string, b: string, l: nat)
    requires l <= |e|
    ensures Middle(e + b, l, 0) == Middle(e, l, 0) + b
  {
  }

  /** The end of a reread base is no slash, so trimming stops there. */
  lemma RereadBaseEnds(b: string, r: nat)
    requires HasQuote(b) && !IsSlash(b[|b| - 1]) && r <= One(EndsQuoted(b))
    ensures |Escape(b)| >= |b| + 4
    ensures !IsSlash(Escape(b)[|Escape(b)| - r - 1])
  {
    EscapeLength(b);
    EscapeEnd(b);
  }

  /** The base of a backend with a quote after one rewrite: escaped, short of a quote at
      either end of the whole setting. */
  lemma BaseAfterReread(backend: string)
    requires HasQuote(backend)
    ensures HasQuote(Base(backend)) && |Escape(Base(backend))| >= |Base(backend)| + 4
    ensures Base(Reread(backend))
         == Middle(Escape(Base(backend)), One(StartsQuoted(Base(backend))), One(EndsQuoted(backend)))
  {
    var slashes := BaseAndSlashes(backend);
    var b := Base(backend);
    if slashes == "" {
      assert b == backend;
      BareBase(b);
    } else {
      SlashedBase(b, slashes);
    }
  }

  lemma TrimMiddle(b: string, r: nat, slashes: string, x: string)
    requires HasQuote(b) && !IsSlash(b[|b| - 1]) && r <= One(EndsQuoted(b))
    requires forall k | 0 <= k < |slashes| :: IsSlash(slashes[k])
    requires |Escape(b)| >= |b| + 4 && x == Middle(Escape(b), One(StartsQuoted(b)), r) + slashes
    ensures Base(x) == Middle(Escape(b), One(StartsQuoted(b)), r)
  {
    RereadBaseEnds(b, r);
    TrimSlashes(Middle(Escape(b), One(StartsQuoted(b)), r), slashes);
  }

  lemma BareBase(b: string)
    requires HasQuote(b) && !IsSlash(b[|b| - 1])
    ensures |Escape(b)| >= |b| + 4
    ensures Base(Reread(b)) == Middle(Escape(b), One(StartsQuoted(b)), One(EndsQuoted(b)))
  {
    RereadGrows(b);
    TrimBare(b, Reread(b));
  }

  lemma TrimBare(b: string, x: string)
    requires HasQuote(b) && !IsSlash(b[|b| - 1]) && |Escape(b)| >= |b| + 4
    requires x == Middle(Escape(b), One(StartsQuoted(b)), One(EndsQuoted(b)))
    ensures Base(x) == x
  {
    assert x + "" == x;
    TrimMiddle(b, One(EndsQuoted(b)), "", x);
  }

  lemma SlashedBase(b: string, slashes: string)
    requires HasQuote(b) && !IsSlash(b[|b| - 1]) && !HasQuote(slashes)
    requires slashes != "" && forall k | 0 <= k < |slashes| :: IsSlash(slashes[k])
    ensures |Escape(b)| >= |b| + 4 && !EndsQuoted(b + slashes)
    ensures Base(Reread(b + slashes)) == Middle(Escape(b), One(StartsQuoted(b)), 0)
  {
    RereadConcat(b, slashes);
    TrimMiddle(b, 0, slashes, Reread(b + slashes));
  }

  /** A rewrite never empties the base, changes it exactly when it has a quote, and leaves
      no quote at the end of the setting. */
  lemma BaseChanges(backend: string)
    ensures Base(Reread(backend)) == "" <==> Base(backend) == ""
    ensures Base(Reread(backend)) == Base(backend) <==> !HasQuote(backend)
    ensures !EndsQuoted(Reread(backend))
  {
    if HasQuote(backend) {
      BaseAfterReread(backend);
      RereadGrows(backend);
    } else {
      RereadClean(backend);
    }
  }

  lemma QuotedTailDiverges(backend: string, tail: string)
    requires Base(backend) != "" && HasQuote(tail)
    ensures |Reread(Base(backend) + tail)| > |Base(Reread(backend)) + tail|
  {
    var (b, u) := (Base(backend), Base(backend) + tail);
    var slashes := BaseAndSlashes(backend);
    HasQuoteConcat(b, tail);
    EscapeConcat(b, tail);
    EscapeLength(b);
    EscapeLength(tail);
    RereadGrows(u);
    assert StartsQuoted(u) == StartsQuoted(b);
    if HasQuote(backend) {
      BaseAfterReread(backend);
    } else {
      RereadClean(backend);
    }
  }

  lemma CleanTailFollows(backend: string, tail: string)
    requires HasQuote(backend) && tail != "" && !HasQuote(tail)
    ensures Reread(Base(backend) + tail) == Base(Reread(backend)) + tail <==> !EndsQuoted(backend)
  {
    var b := Base(backend);
    BaseAfterReread(backend);
    RereadConcat(b, tail);
  }

  /** A stored URL and the backend it came from are both reread by one rewrite. The URL then
      derived is the one read back exactly when no quote follows the base: neither in the
      tail nor as the setting's last character. */
  lemma UrlAfterReread(backend: string, tail: string)
    requires Base(backend) != "" && tail != ""
    ensures Reread(Base(backend) + tail) == Base(Reread(backend)) + tail
        <==> !HasQuote(tail) && !EndsQuoted(backend)
  {
    if HasQuote(tail) {
      QuotedTailDiverges(backend, tail);
    } else if HasQuote(backend) {
      CleanTailFollows(backend, tail);
    } else {
      var slashes := BaseAndSlashes(backend);
      HasQuoteConcat(Base(backend), tail);
      RereadClean(backend);
      RereadClean(Base(backend) + tail);
    }
  }
}
