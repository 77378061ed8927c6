/**
 The keys as the store has them, in text.  The rest of the model keeps keys as data; that loses
 nothing, because different keys have different texts and a scan by prefix meets its own kind only.
 How a stamp's instant is written is a parameter, as long as different instants are written differently.
 */
module Keys {
  import opened Text
  import opened Tickets

  const PENDING_PREFIX := "/cron/tasks/pending/"
  const CLAIMED_PREFIX := "/cron/tasks/claimed/"
  const RESULTS_PREFIX := "/cron/results/"
  const OVERLAP_PREFIX := "/cron/overlap/"
  const WATERMARK_PREFIX := "/cron/watermark/"

  function Decimal(n: int): string { if n < 0 then "-" + Itoa(-n) else Itoa(n) }

  function StampText(s: Stamp, write: Sched -> string): string { Decimal(s.job) + ['@'] + write(s.sched) }

  function Prefix(k: Key): string {
    match k
    case Pending(_) => PENDING_PREFIX
    case Claimed(_) => CLAIMED_PREFIX
    case Overlap(_) => OVERLAP_PREFIX
    case Watermark(_) => WATERMARK_PREFIX
    case ResultAt(_, _) => RESULTS_PREFIX
  }

  function Body(k: Key, write: Sched -> string): string {
    match k
    case Pending(s) => StampText(s, write)
    case Claimed(s) => StampText(s, write)
    case Overlap(job) => Decimal(job)
    case Watermark(job) => Decimal(job)
    case ResultAt(s, attempt) => StampText(s, write) + ['#'] + Decimal(attempt)
  }

  function KeyText(k: Key, write: Sched -> string): string { Prefix(k) + Body(k, write) }

  ghost predicate Injective(write: Sched -> string) { forall a, b | write(a) == write(b) :: a == b }

  lemma DecimalHas(n: int, c: char)
    requires c in Decimal(n)
    ensures IsDigit(c) || c == '-'
  {
  }

  lemma DecimalSign(n: int)
    ensures Decimal(n) != "" && (Decimal(n)[0] == '-' <==> n < 0)
    ensures n < 0 ==> Decimal(n)[1..] == Itoa(-n)
  {
  }

  lemma DecimalInjective(a: int, b: int)
    requires Decimal(a) == Decimal(b)
    ensures a == b
  {
    DecimalSign(a);
    DecimalSign(b);
    NumberOfItoa(if a < 0 then -a else a);
    NumberOfItoa(if b < 0 then -b else b);
  }

  lemma StampInjective(a: Stamp, b: Stamp, write: Sched -> string)
    requires Injective(write) && StampText(a, write) == StampText(b, write)
    ensures a == b
  {
    if '@' in Decimal(a.job) { DecimalHas(a.job, '@'); }
    if '@' in Decimal(b.job) { DecimalHas(b.job, '@'); }
    IndexOfCut(Decimal(a.job), '@', write(a.sched));
    IndexOfCut(Decimal(b.job), '@', write(b.sched));
    var s, i := StampText(a, write), |Decimal(a.job)|;
    assert s[..i] == Decimal(a.job) == Decimal(b.job);
    assert s[i + 1..] == write(a.sched) == write(b.sched);
    DecimalInjective(a.job, b.job);
  }

  lemma NoHashAfter(a: string, m: int, i: nat)
    requires |a| < i < |a + ['#'] + Decimal(m)|
    ensures (a + ['#'] + Decimal(m))[i] != '#'
  {
    var c := Decimal(m)[i - |a| - 1];
    DecimalHas(m, c);
  }

  /** Cutting at the last `#`: what follows it has none. */
  lemma SameCut(a: string, m: int, b: string, n: int)
    requires a + ['#'] + Decimal(m) == b + ['#'] + Decimal(n)
    ensures a == b && m == n
  {
    var s := a + ['#'] + Decimal(m);
    assert s[|a|] == '#' && s[|b|] == '#';
    if |a| < |b| { NoHashAfter(a, m, |b|); }
    if |b| < |a| { NoHashAfter(b, n, |a|); }
    assert a == s[..|a|] == b;
    assert Decimal(m) == s[|a| + 1..] == Decimal(n);
    DecimalInjective(m, n);
  }

  predicate StartsWith(s: string, p: string) { p <= s }

  /** No prefix begins another. */
  lemma PrefixesApart(j: Key, k: Key, tail: string)
    requires Prefix(j) <= Prefix(k) + tail
    ensures Prefix(j) == Prefix(k)
  {
    var s := Prefix(k) + tail;
    assert s[6] == Prefix(k)[6] && s[12] == Prefix(k)[12];
    assert s[6] == Prefix(j)[6] && s[12] == Prefix(j)[12];
  }

  /** A scan by prefix returns the keys of one kind and no others. */
  lemma ScansMeetTheirKind(j: Key, k: Key, write: Sched -> string)
    ensures StartsWith(KeyText(k, write), Prefix(j)) <==> Prefix(k) == Prefix(j)
  {
    if StartsWith(KeyText(k, write), Prefix(j)) { PrefixesApart(j, k, Body(k, write)); }
  }

  lemma SamePrefixSameKind(j: Key, k: Key)
    requires Prefix(j) == Prefix(k)
    ensures (j.Pending? <==> k.Pending?) && (j.Claimed? <==> k.Claimed?) && (j.Overlap? <==> k.Overlap?)
    ensures (j.Watermark? <==> k.Watermark?) && (j.ResultAt? <==> k.ResultAt?)
  {
    assert Prefix(j)[6] == Prefix(k)[6] && Prefix(j)[12] == Prefix(k)[12];
  }

  /** Different keys have different texts. */
  lemma KeysAreInjective(j: Key, k: Key, write: Sched -> string)
    requires Injective(write) && KeyText(j, write) == KeyText(k, write)
    ensures j == k
  {
    ScansMeetTheirKind(j, k, write);
    assert StartsWith(KeyText(k, write), Prefix(j)) by { assert KeyText(j, write)[..|Prefix(j)|] == Prefix(j); }
    SamePrefixSameKind(j, k);
    assert Body(j, write) == KeyText(j, write)[|Prefix(j)|..] == Body(k, write);
    match j
    case Pending(s) => StampInjective(s, k.stamp, write);
    case Claimed(s) => StampInjective(s, k.stamp, write);
    case Overlap(job) => DecimalInjective(job, k.job);
    case Watermark(job) => DecimalInjective(job, k.job);
    case ResultAt(s, attempt) =>
      SameCut(StampText(s, write), attempt, StampText(k.stamp, write), k.attempt);
      StampInjective(s, k.stamp, write);
  }

  /** The texts, spelled out; a claim is written under what follows the prefix in the key of the pending ticket. */
  lemma KeyTexts(s: Stamp, job: int, attempt: int, write: Sched -> string)
    ensures var body := Decimal(s.job) + "@" + write(s.sched);
      && KeyText(Pending(s), write) == "/cron/tasks/pending/" + body
      && KeyText(Claimed(s), write) == "/cron/tasks/claimed/" + body
      && KeyText(ResultAt(s, attempt), write) == "/cron/results/" + (body + "#" + Decimal(attempt))
    ensures KeyText(Overlap(job), write) == "/cron/overlap/" + Decimal(job)
    ensures KeyText(Watermark(job), write) == "/cron/watermark/" + Decimal(job)
  {
  }

  /** The listing of claims cuts what follows the prefix at its first `@`, and gets back the job and the instant. */
  lemma ClaimIsReadBack(s: Stamp, write: Sched -> string)
    requires 0 <= s.job < TWO63
    ensures var body := Body(Claimed(s), write);
      var i := Index(body, '@');
      0 < i < |body| && Atoi(body[..i]) == Some(s.job) && body[i + 1..] == write(s.sched)
  {
    var body, i := Body(Claimed(s), write), |Decimal(s.job)|;
    if '@' in Decimal(s.job) { DecimalHas(s.job, '@'); }
    IndexOfCut(Decimal(s.job), '@', write(s.sched));
    AtoiOfItoa(s.job);
    assert body[..i] == Itoa(s.job) && body[i + 1..] == write(s.sched);
  }
}
