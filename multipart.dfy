/**
 * The multipart form body that travels from the application form to the
 * server route: an ordered list of named parts, each a text value or an
 * uploaded file, read back with `FormData.get` (the first part with that
 * name, or nothing). Attachments travel under the names `file1`, `file2`, …
 * and the server finds them by probing those names in order until one is
 * missing.
 */
module Multipart {
  import opened Strings

  datatype Option<T> = None | Some(value: T)

  type byte = bv8

  /** A browser `File`: its name and its bytes; `size` is the byte count. */
  datatype File = File(name: string, content: seq<byte>)

  function Size(f: File): nat {
    |f.content|
  }

  /** 10 MiB, the per-file limit that the form and the route both apply. */
  const MaxFileSize: nat := 10 * 1024 * 1024

  /** `file.size > 10 * 1024 * 1024`. */
  predicate Oversize(f: File) {
    Size(f) > MaxFileSize
  }

  /** A `FormDataEntryValue`: a string or a file. */
  datatype Entry = Text(text: string) | Upload(file: File)

  datatype Part = Part(key: string, value: Entry)

  type Body = seq<Part>

  /** The names that occur in a body. */
  ghost function Keys(body: Body): set<string> {
    set i | 0 <= i < |body| :: body[i].key
  }

  /** `FormData.get(key)`: the value of the first part named `key`, or
      nothing when no part has that name. */
  function Get(body: Body, key: string): Option<Entry> {
    if body == [] then None
    else if body[0].key == key then Some(body[0].value)
    else Get(body[1..], key)
  }

  /** `Get` finds a value exactly when the name occurs, and what it finds is
      the value of the first part with that name. */
  lemma {:induction false} GetFindsFirst(body: Body, key: string)
    ensures Get(body, key).Some? <==> key in Keys(body)
    ensures Get(body, key).Some? ==> exists i :: 0 <= i < |body| && body[i] == Part(key, Get(body, key).value)
                                               && forall j :: 0 <= j < i ==> body[j].key != key
  {
    if body != [] {
      assert Keys(body) == {body[0].key} + Keys(body[1..]) by {
        forall k | k in Keys(body) ensures k in {body[0].key} + Keys(body[1..]) {
          var i :| 0 <= i < |body| && body[i].key == k;
          if i > 0 {
            assert body[1..][i - 1].key == k;
          }
        }
      }
      if body[0].key != key {
        GetFindsFirst(body[1..], key);
        var r := Get(body, key);
        if r.Some? {
          var i :| 0 <= i < |body[1..]| && body[1..][i] == Part(key, r.value)
            && forall j :: 0 <= j < i ==> body[1..][j].key != key;
          assert body[i + 1] == Part(key, r.value);
        }
      }
    }
  }

  /** A part whose name no earlier part has is the one `Get` finds. */
  lemma {:induction false} GetAt(body: Body, i: nat)
    requires i < |body|
    requires forall j :: 0 <= j < i ==> body[j].key != body[i].key
    ensures Get(body, body[i].key) == Some(body[i].value)
  {
    if i > 0 {
      assert body[1..][i - 1] == body[i];
      GetAt(body[1..], i - 1);
    }
  }

  /** A name no part has is not found. */
  lemma {:induction false} GetMissing(body: Body, key: string)
    requires forall j :: 0 <= j < |body| ==> body[j].key != key
    ensures Get(body, key) == None
  {
    if body != [] {
      GetMissing(body[1..], key);
    }
  }

  /** Looking a name up in two bodies laid end to end finds it in the first
      if it is there, and in the second otherwise. */
  lemma {:induction false} GetAppend(a: Body, b: Body, key: string)
    ensures Get(a + b, key) == if Get(a, key).Some? then Get(a, key) else Get(b, key)
  {
    if a != [] {
      assert (a + b)[0] == a[0];
      assert (a + b)[1..] == a[1..] + b;
      GetAppend(a[1..], b, key);
    } else {
      assert a + b == b;
    }
  }

  /** JavaScript falsiness of a `get` result: `null` and the empty string
      are falsy; every other string and every file is truthy. */
  predicate Falsy(v: Option<Entry>) {
    v.None? || v.value == Text("")
  }

  /** `String(value)`, as a template literal or a regular-expression test
      renders an entry. */
  function Str(e: Entry): string {
    match e
    case Text(s) => s
    case Upload(_) => "[object File]"
  }

  /** `` `file${i}` `` */
  function FileKey(i: nat): string {
    "file" + Decimal(i)
  }

  /** Distinct indexes give distinct attachment names. */
  lemma FileKeyInjective(i: nat, j: nat)
    ensures FileKey(i) == FileKey(j) <==> i == j
  {
    if FileKey(i) == FileKey(j) {
      assert Decimal(i) == FileKey(i)[4..];
      assert Decimal(j) == FileKey(j)[4..];
      DecimalInjective(i, j);
    }
  }

  /** A name that does not start with `f` is no attachment name. */
  lemma NotAFileKey(key: string, i: nat)
    requires key == [] || key[0] != 'f'
    ensures key != FileKey(i)
  {
    assert FileKey(i)[0] == 'f';
  }

  /** `data.get(`file${i}`)` as the probing loop sees it: the entry when it
      is truthy, nothing when the loop would stop there. */
  function Probe(body: Body, i: nat): Option<Entry> {
    var e := Get(body, FileKey(i));
    if Falsy(e) then None else e
  }

  /** The names probed before index `i`: `file1` … `file(i-1)`. */
  ghost function ProbedKeys(i: nat): set<string> {
    set j | 1 <= j < i :: FileKey(j)
  }

  /** How many names of the body have not been probed before index `i`. */
  ghost function Unprobed(body: Body, i: nat): nat {
    |Keys(body) - ProbedKeys(i)|
  }

  /** Each successful probe uses up one name of the body that had not been
      probed before, so probing cannot go on forever. */
  lemma ProbeShrinks(body: Body, i: nat)
    requires i >= 1 && Probe(body, i).Some?
    ensures Unprobed(body, i + 1) < Unprobed(body, i)
  {
    var k := FileKey(i);
    GetFindsFirst(body, k);
    assert ProbedKeys(i + 1) == ProbedKeys(i) + {k};
    forall j | 1 <= j < i ensures FileKey(j) != k {
      FileKeyInjective(j, i);
    }
    assert k !in ProbedKeys(i);
    assert Keys(body) - ProbedKeys(i) == (Keys(body) - ProbedKeys(i + 1)) + {k};
  }

  /** `files` is what probing from index `i` collects: the truthy entries of
      `file{i}`, `file{i+1}`, … in order, up to the first index whose probe
      misses. */
  predicate IsProbeRun(body: Body, i: nat, files: seq<Entry>) {
    && (forall j :: 0 <= j < |files| ==> ProbeAt(body, i, j) == Some(files[j]))
    && ProbeAt(body, i, |files|).None?
  }

  /** The probe `j` steps after index `i`. */
  function ProbeAt(body: Body, i: nat, j: nat): Option<Entry> {
    Probe(body, i + j)
  }

  /** Probing from index `i` collects exactly one run. */
  function FilesFrom(body: Body, i: nat): (files: seq<Entry>)
    requires i >= 1
    ensures IsProbeRun(body, i, files)
    decreases Unprobed(body, i)
  {
    var e := Probe(body, i);
    if e.None? then []
    else
      ProbeShrinks(body, i);
      var rest := FilesFrom(body, i + 1);
      ProbeRunCons(body, i, e.value, rest);
      [e.value] + rest
  }

  /** A hit at index `i` followed by a run from `i + 1` is a run from `i`. */
  lemma ProbeRunCons(body: Body, i: nat, e: Entry, rest: seq<Entry>)
    requires Probe(body, i) == Some(e) && IsProbeRun(body, i + 1, rest)
    ensures IsProbeRun(body, i, [e] + rest)
  {
    assert forall j :: 1 <= j <= |rest| ==> ProbeAt(body, i, j) == ProbeAt(body, i + 1, j - 1);
  }

  /** The first `|files|` probes from `file1` found `files`, in order. */
  predicate FoundSoFar(body: Body, files: seq<Entry>) {
    forall j :: 0 <= j < |files| ==> ProbeAt(body, 1, j) == Some(files[j])
  }

  /** One more successful probe extends what has been found by its entry. */
  lemma FoundOneMore(body: Body, files: seq<Entry>, e: Entry)
    requires FoundSoFar(body, files) && Probe(body, |files| + 1) == Some(e)
    ensures FoundSoFar(body, files + [e])
  {
    assert ProbeAt(body, 1, |files|) == Some(e);
  }

  /** The attachments the server finds: the run that starts at `file1`. */
  function Discovered(body: Body): seq<Entry> {
    FilesFrom(body, 1)
  }

  /** A run is determined by the body and its start: no two lists can both
      be what probing collects. */
  lemma ProbeRunUnique(body: Body, i: nat, a: seq<Entry>, b: seq<Entry>)
    requires IsProbeRun(body, i, a) && IsProbeRun(body, i, b)
    ensures a == b
  {
    assert |a| == |b|;
    assert forall j :: 0 <= j < |a| ==> ProbeAt(body, i, j) == Some(a[j]) == Some(b[j]);
  }

  /** A missing `file{k}` hides every later attachment: fewer than `k`
      attachments are found. */
  lemma GapHidesLater(body: Body, k: nat)
    requires k >= 1 && Probe(body, k).None?
    ensures |Discovered(body)| < k
  {
    assert ProbeAt(body, 1, k - 1) == Probe(body, k);
  }

  /** The `k`-th attachment found is the value under `file{k+1}`. */
  lemma DiscoveredInOrder(body: Body)
    ensures forall k :: 0 <= k < |Discovered(body)| ==> Probe(body, k + 1) == Some(Discovered(body)[k])
  {
    assert forall k :: 0 <= k < |Discovered(body)| ==> ProbeAt(body, 1, k) == Some(Discovered(body)[k]);
  }

  // ---------------------------------------------------------------------
  // The body on the wire

  /** How many characters of `s` the first step of `Wire` consumes: two
      for a CR LF pair, one otherwise. */
  function StepLength(s: string): nat
    requires s != []
  {
    if s[0] == '\r' && |s| >= 2 && s[1] == '\n' then 2 else 1
  }

  /** What the first step of `Wire` sends for a text starting with `c`. */
  function StepOutput(c: char): string {
    if c == '\r' || c == '\n' then "\r\n" else [c]
  }

  /** A string value as the multipart/form-data encoding of the HTML
      standard sends it: every line break, whether a lone CR, a lone LF or
      a CR LF pair, becomes CR LF. The route reads the value sent. */
  function Wire(s: string): (r: string)
    ensures r == [] <==> s == []
  {
    if s == [] then []
    else if s[0] == '\r' && |s| >= 2 && s[1] == '\n' then "\r\n" + Wire(s[2..])
    else if s[0] == '\r' || s[0] == '\n' then "\r\n" + Wire(s[1..])
    else [s[0]] + Wire(s[1..])
  }

  /** `Wire` takes one step and sends the rest. */
  lemma WireStep(s: string)
    requires s != []
    ensures StepLength(s) <= |s|
    ensures Wire(s) == StepOutput(s[0]) + Wire(s[StepLength(s)..])
  {
  }

  /** Appending text that does not complete a CR LF pair leaves the first
      step of `Wire` alone. */
  lemma StepOfAppend(a: string, b: string)
    requires a != [] && (b == [] || !(a[|a| - 1] == '\r' && b[0] == '\n'))
    ensures StepLength(a) <= |a|
    ensures (a + b)[0] == a[0] && StepLength(a + b) == StepLength(a)
    ensures (a + b)[StepLength(a)..] == a[StepLength(a)..] + b
  {
    if |a| >= 2 {
      assert (a + b)[1] == a[1];
    } else if b != [] {
      assert (a + b)[1] == b[0];
    }
  }

  /** The first step of sending `a + b` is the first step of sending `a`,
      when the cut does not split a CR LF pair. */
  lemma WireStepOfAppend(a: string, b: string)
    requires a != [] && (b == [] || !(a[|a| - 1] == '\r' && b[0] == '\n'))
    ensures StepLength(a) <= |a|
    ensures Wire(a + b) == StepOutput(a[0]) + Wire(a[StepLength(a)..] + b)
  {
    StepOfAppend(a, b);
    WireStep(a + b);
  }

  /** `h + (x + y)` regrouped as `(h + x) + y`, with every piece named. */
  lemma Regroup(h: string, whole: string, front: string, tail: string, x: string, y: string)
    requires whole == h + tail && tail == x + y && front == h + x
    ensures whole == front + y
  {
  }

  /** Sending a text is sending its pieces one after the other, as long as
      the cut does not split a CR LF pair. */
  lemma {:induction false} WireAppend(a: string, b: string)
    requires a == [] || b == [] || !(a[|a| - 1] == '\r' && b[0] == '\n')
    ensures Wire(a + b) == Wire(a) + Wire(b)
  {
    if a == [] {
      assert a + b == b;
    } else {
      WireStep(a);
      var rest := a[StepLength(a)..];
      assert rest == [] || rest[|rest| - 1] == a[|a| - 1];
      WireAppend(rest, b);
      WireStepOfAppend(a, b);
      Regroup(StepOutput(a[0]), Wire(a + b), Wire(a), Wire(rest + b), Wire(rest), Wire(b));
    }
  }

  /** Every character other than a line break is sent as itself, and each
      of the three line breaks is sent as CR LF. With `WireAppend` this
      gives `Wire` of every text, character by character. */
  lemma WireChar(c: char)
    ensures c != '\r' && c != '\n' ==> Wire([c]) == [c]
    ensures Wire("\r") == Wire("\n") == Wire("\r\n") == "\r\n"
  {
    assert [c][1..] == [];
    assert "\r"[1..] == [] && "\n"[1..] == [] && "\r\n"[2..] == [];
  }

  /** `s` holds no CR and no LF. */
  predicate NoBreaks(s: string) {
    forall k :: 0 <= k < |s| ==> s[k] != '\r' && s[k] != '\n'
  }

  /** The character at `k` is no lone line break: an LF there follows a CR,
      and a CR there is followed by an LF. */
  predicate PairedAt(s: string, k: nat)
    requires k < |s|
  {
    && (s[k] == '\n' ==> 0 < k && s[k - 1] == '\r')
    && (s[k] == '\r' ==> k + 1 < |s| && s[k + 1] == '\n')
  }

  /** Each line break of `s` is a CR LF pair. */
  predicate Normalised(s: string) {
    forall k :: 0 <= k < |s| ==> PairedAt(s, k)
  }

  /** A CR LF pair put in front of a normalised text keeps it normalised. */
  lemma NormalisedAfterBreak(r: string)
    requires Normalised(r)
    ensures Normalised("\r\n" + r)
  {
    var s := "\r\n" + r;
    forall k | 0 <= k < |s| ensures PairedAt(s, k) {
      if k >= 2 {
        assert PairedAt(r, k - 2);
      }
    }
  }

  /** A character other than CR and LF put in front of a normalised text
      keeps it normalised. */
  lemma NormalisedAfterPlain(c: char, r: string)
    requires c != '\r' && c != '\n' && Normalised(r)
    ensures Normalised([c] + r)
  {
    var s := [c] + r;
    forall k | 0 <= k < |s| ensures PairedAt(s, k) {
      if k >= 1 {
        assert PairedAt(r, k - 1);
      }
    }
  }

  /** After encoding, every line break is a CR LF pair. */
  lemma {:induction false} WireNormalises(s: string)
    ensures Normalised(Wire(s))
  {
    if s != [] {
      if s[0] == '\r' && |s| >= 2 && s[1] == '\n' {
        WireNormalises(s[2..]);
        NormalisedAfterBreak(Wire(s[2..]));
      } else if s[0] == '\r' || s[0] == '\n' {
        WireNormalises(s[1..]);
        NormalisedAfterBreak(Wire(s[1..]));
      } else {
        WireNormalises(s[1..]);
        NormalisedAfterPlain(s[0], Wire(s[1..]));
      }
    }
  }

  /** Dropping the first `d` characters of a normalised text that does not
      cut a CR LF pair leaves it normalised. */
  lemma NormalisedSuffix(s: string, d: nat)
    requires Normalised(s) && d <= |s|
    requires d < |s| ==> s[d] != '\n'
    ensures Normalised(s[d..])
  {
    forall k | 0 <= k < |s[d..]| ensures PairedAt(s[d..], k) {
      assert PairedAt(s, k + d);
    }
  }

  /** A text whose line breaks are already CR LF pairs is sent unchanged;
      in particular encoding twice is encoding once. */
  lemma {:induction false} WireKeepsNormalised(s: string)
    requires Normalised(s)
    ensures Wire(s) == s
  {
    if s != [] {
      assert PairedAt(s, 0);
      if s[0] == '\r' {
        if |s| > 2 {
          assert PairedAt(s, 2);
        }
        NormalisedSuffix(s, 2);
        WireKeepsNormalised(s[2..]);
        assert s == "\r\n" + s[2..];
      } else {
        if |s| > 1 {
          assert PairedAt(s, 1);
        }
        NormalisedSuffix(s, 1);
        WireKeepsNormalised(s[1..]);
        assert s == [s[0]] + s[1..];
      }
    }
  }

  /** The first character sent: CR for a line break, the character itself
      otherwise. */
  lemma WireHead(s: string)
    requires s != []
    ensures Wire(s) != [] && Wire(s)[0] == if s[0] == '\r' || s[0] == '\n' then '\r' else s[0]
  {
  }

  /** The only text sent as a text without line breaks is that text. */
  lemma {:induction false} SentAsPlain(s: string, p: string)
    requires NoBreaks(p) && Wire(s) == p
    ensures s == p
  {
    if s != [] {
      WireHead(s);
      assert p[0] != '\r';
      assert p == [s[0]] + Wire(s[1..]);
      assert NoBreaks(p[1..]) by {
        forall k | 0 <= k < |p[1..]| ensures p[1..][k] == p[k + 1] {}
      }
      SentAsPlain(s[1..], p[1..]);
      assert s == [s[0]] + s[1..];
    }
  }

  /** A text without line breaks is sent unchanged, and it is the only text
      sent as itself. */
  lemma WireOfPlain(s: string, p: string)
    requires NoBreaks(p)
    ensures Wire(s) == p <==> s == p
  {
    if s == p {
      forall k | 0 <= k < |p| ensures PairedAt(p, k) {}
      WireKeepsNormalised(p);
    }
    if Wire(s) == p {
      SentAsPlain(s, p);
    }
  }

  /** An entry as sent: a string goes through `Wire`, a file travels as it is. */
  function SentEntry(e: Entry): Entry {
    match e
    case Text(s) => Text(Wire(s))
    case Upload(_) => e
  }

  /** The body `fetch` sends, as the route's `formData()` reads it back: the
      same parts, in the same order, under the same names. */
  function Sent(body: Body): Body {
    seq(|body|, i requires 0 <= i < |body| => Part(body[i].key, SentEntry(body[i].value)))
  }

  /** `get` on the body sent finds what `get` on the body built finds, as
      sent. */
  lemma {:induction false} GetSent(body: Body, key: string)
    ensures Get(Sent(body), key)
         == if Get(body, key).Some? then Some(SentEntry(Get(body, key).value)) else None
  {
    if body != [] {
      assert Sent(body)[1..] == Sent(body[1..]);
      GetSent(body[1..], key);
    }
  }

  /** Probing the body sent hits where probing the body built hits, and
      finds the same entry as sent. */
  lemma ProbeSent(body: Body, i: nat)
    ensures Probe(Sent(body), i) == if Probe(body, i).Some? then Some(SentEntry(Probe(body, i).value)) else None
  {
    GetSent(body, FileKey(i));
  }
}
