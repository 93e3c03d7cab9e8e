/** The DNS proxy's view of a query (crates/agent/src/dns_proxy.rs): the name in the wire format of
    RFC 1035 sections 4.1.1 and 4.1.2, and whether a blocklist covers it. */
module DnsFilter {
  import opened Wrappers

  newtype byte = x: int | 0 <= x < 256

  type Label = seq<byte>

  /** Turns the bytes of a label into lower-case text; bytes that are no text are replaced somehow. */
  type Decoder = Label -> string

  const HEADER: nat := 12

  // ---- Reading a name ---------------------------------------------------------------------

  /** A length byte with both top bits set is a compression pointer. */
  predicate IsPointer(length: byte) { length >= 0xC0 }

  /** The labels from `pos` on, up to the root label. */
  function LabelsAt(query: seq<byte>, pos: nat): Option<seq<Label>>
    decreases |query| - pos
  {
    if pos >= |query| || IsPointer(query[pos]) then None
    else
      var length := query[pos] as nat;
      if length == 0 then Some([])
      else if pos + 1 + length > |query| then None
      else
        var rest := LabelsAt(query, pos + 1 + length);
        if rest.None? then None else Some([query[pos + 1..pos + 1 + length]] + rest.value)
  }

  function Texts(labels: seq<Label>, decode: Decoder): seq<string> { seq(|labels|, i requires 0 <= i < |labels| => decode(labels[i])) }

  function Join(labels: seq<string>): string {
    if labels == [] then "" else if |labels| == 1 then labels[0] else labels[0] + "." + Join(labels[1..])
  }

  function QnameOf(query: seq<byte>, decode: Decoder): Option<string> {
    if |query| < 13 then None
    else
      var labels := LabelsAt(query, HEADER);
      if labels.None? || labels.value == [] then None else Some(Join(Texts(labels.value, decode)))
  }

  /** Extracts the queried name; stays within the packet whatever its bytes are. */
  method ParseQname(query: seq<byte>, decode: Decoder) returns (name: Option<string>)
    ensures name == QnameOf(query, decode)
  {
    if |query| < 13 { return None; }
    var labels: seq<string> := [];
    ghost var raw: seq<Label> := [];
    var pos := HEADER;
    assert forall rest: seq<Label> :: raw + rest == rest;
    while true
      invariant HEADER <= pos
      invariant labels == Texts(raw, decode)
      invariant LabelsAt(query, HEADER)
             == if LabelsAt(query, pos).None? then None else Some(raw + LabelsAt(query, pos).value)
      decreases |query| - pos
    {
      if pos >= |query| { return None; }
      var length := query[pos] as nat;
      if length == 0 { break; }
      if IsPointer(query[pos]) { return None; }
      if pos + 1 + length > |query| { return None; }
      ghost var before := raw;
      raw := raw + [query[pos + 1..pos + 1 + length]];
      labels := labels + [decode(query[pos + 1..pos + 1 + length])];
      forall rest: seq<Label> ensures before + ([query[pos + 1..pos + 1 + length]] + rest) == raw + rest {}
      pos := pos + 1 + length;
    }
    assert LabelsAt(query, HEADER) == Some(raw) by { assert raw + [] == raw; }
    if labels == [] { return None; }
    return Some(Join(labels));
  }

  // ---- Writing a name ---------------------------------------------------------------------

  /** Labels the parser takes: not empty, and too short to be a pointer. */
  predicate Fits(bytes: Label) { 0 < |bytes| < 0xC0 }

  predicate AllFit(labels: seq<Label>) { forall i :: 0 <= i < |labels| ==> Fits(labels[i]) }

  /** Each label behind its length, then the root label. */
  function Wire(labels: seq<Label>): (w: seq<byte>)
    requires AllFit(labels)
    ensures |w| > 0
  {
    if labels == [] then [0] else [|labels[0]| as byte] + labels[0] + Wire(labels[1..])
  }

  /** The wire form of `labels` stands at `pos`. */
  predicate WrittenAt(query: seq<byte>, pos: nat, labels: seq<Label>) {
    pos <= |query| && AllFit(labels) && Wire(labels) <= query[pos..]
  }

  lemma {:induction false} ReadIsWritten(query: seq<byte>, pos: nat, labels: seq<Label>)
    requires LabelsAt(query, pos) == Some(labels)
    ensures WrittenAt(query, pos, labels)
    decreases |query| - pos
  {
    var length := query[pos] as nat;
    if length > 0 {
      var end := pos + 1 + length;
      ReadIsWritten(query, end, labels[1..]);
      assert query[pos..] == [query[pos]] + query[pos + 1..end] + query[end..];
      assert forall i :: 0 < i < |labels| ==> labels[i] == labels[1..][i - 1];
    }
  }

  lemma {:induction false} WrittenIsRead(query: seq<byte>, pos: nat, labels: seq<Label>)
    requires WrittenAt(query, pos, labels)
    ensures LabelsAt(query, pos) == Some(labels)
    decreases labels
  {
    var wire := Wire(labels);
    assert wire[0] == query[pos..][0] == query[pos];
    if labels != [] {
      assert Fits(labels[0]);
      var end := pos + 1 + |labels[0]|;
      var rest := Wire(labels[1..]);
      assert |wire| == 1 + |labels[0]| + |rest|;
      assert labels[0] == wire[1..1 + |labels[0]|] == query[pos..][1..1 + |labels[0]|] == query[pos + 1..end];
      assert rest == wire[1 + |labels[0]|..] == query[pos..][1 + |labels[0]|..|wire|];
      assert query[pos..][1 + |labels[0]|..] == query[end..];
      WrittenIsRead(query, end, labels[1..]);
      assert labels == [labels[0]] + labels[1..];
    }
  }

  /** Reading is the exact inverse of writing: the labels at `pos` are `labels` exactly when their
      wire form is what stands there. */
  lemma ReadsWhatIsWritten(query: seq<byte>, pos: nat, labels: seq<Label>)
    ensures LabelsAt(query, pos) == Some(labels) <==> WrittenAt(query, pos, labels)
  {
    if LabelsAt(query, pos) == Some(labels) { ReadIsWritten(query, pos, labels); }
    if WrittenAt(query, pos, labels) { WrittenIsRead(query, pos, labels); }
  }

  // ---- Dotted names -----------------------------------------------------------------------

  /** Text between dots; at least one label, possibly empty ones. */
  function Split(s: string): (labels: seq<string>)
    ensures labels != []
  {
    if s == "" then [""] else Prepend(s[0], Split(s[1..]))
  }

  function Prepend(c: char, labels: seq<string>): (longer: seq<string>)
    requires labels != []
    ensures longer != []
  {
    if c == '.' then [""] + labels else [[c] + labels[0]] + labels[1..]
  }

  lemma PrependAppends(c: char, a: seq<string>, b: seq<string>)
    requires a != []
    ensures Prepend(c, a + b) == Prepend(c, a) + b
  {}

  lemma {:induction false} SplitDotFree(s: string)
    requires '.' !in s
    ensures Split(s) == [s]
  {
    if s != "" {
      SplitDotFree(s[1..]);
      assert s == [s[0]] + s[1..];
    }
  }

  lemma {:induction false} SplitAtDot(a: string, b: string)
    ensures Split(a + "." + b) == Split(a) + Split(b)
  {
    if a == "" {
      assert (a + "." + b)[1..] == b;
    } else {
      SplitAtDot(a[1..], b);
      assert (a + "." + b)[1..] == a[1..] + "." + b;
      PrependAppends(a[0], Split(a[1..]), Split(b));
    }
  }

  lemma {:induction false} JoinSplit(s: string)
    ensures Join(Split(s)) == s
  {
    if s != "" {
      JoinSplit(s[1..]);
      var rest := Split(s[1..]);
      if s[0] == '.' {
        assert ([""] + rest)[1..] == rest;
      } else {
        assert Split(s)[1..] == rest[1..];
      }
    }
  }

  predicate DotFree(labels: seq<string>) { forall i :: 0 <= i < |labels| ==> labels[i] != "" && '.' !in labels[i] }

  lemma {:induction false} SplitHasNoDots(s: string)
    ensures forall l :: l in Split(s) ==> '.' !in l
  {
    if s != "" {
      SplitHasNoDots(s[1..]);
      forall l | l in Split(s) ensures '.' !in l {
        var rest := Split(s[1..]);
        assert l in rest || l == "" || (s[0] != '.' && l == [s[0]] + rest[0] && rest[0] in rest);
      }
    }
  }

  /** The dotted name keeps its labels apart exactly when none of them contains a dot. */
  lemma {:induction false} DottedNameIsExact(labels: seq<string>)
    requires labels != []
    ensures Split(Join(labels)) == labels <==> forall l :: l in labels ==> '.' !in l
  {
    SplitHasNoDots(Join(labels));
    if forall l :: l in labels ==> '.' !in l {
      SplitDotFree(labels[0]);
      if |labels| > 1 {
        DottedNameIsExact(labels[1..]);
        SplitAtDot(labels[0], Join(labels[1..]));
      }
    }
  }

  lemma {:induction false} JoinAppends(a: seq<string>, b: seq<string>)
    requires a != [] && b != []
    ensures Join(a + b) == Join(a) + "." + Join(b)
  {
    if |a| > 1 {
      JoinAppends(a[1..], b);
      assert (a + b)[1..] == a[1..] + b;
    } else {
      assert (a + b)[1..] == b;
    }
  }

  // ---- The blocklist ----------------------------------------------------------------------

  function TrimDots(s: string): string { if s != "" && s[|s| - 1] == '.' then TrimDots(s[..|s| - 1]) else s }

  predicate EndsWith(s: string, end: string) { |end| <= |s| && s[|s| - |end|..] == end }

  predicate Covers(name: string, entry: string) { name == entry || EndsWith(name, "." + entry) }

  predicate IsBlocked(qname: string, blocked: seq<string>) {
    exists b :: b in blocked && Covers(TrimDots(qname), TrimDots(b))
  }

  predicate IsSuffix(end: seq<string>, labels: seq<string>) { |end| <= |labels| && labels[|labels| - |end|..] == end }

  lemma {:induction false} LastCharOfJoin(labels: seq<string>)
    requires labels != [] && DotFree(labels)
    ensures Join(labels) != "" && Join(labels)[|Join(labels)| - 1] != '.'
  {
    if |labels| > 1 { LastCharOfJoin(labels[1..]); }
    else { assert labels[0][|labels[0]| - 1] in labels[0]; }
  }

  lemma EndingIsSuffix(labels: seq<string>, head: string, entry: string)
    requires labels != [] && DotFree(labels) && Join(labels) == head + "." + entry
    ensures IsSuffix(Split(entry), labels)
  {
    DottedNameIsExact(labels);
    SplitAtDot(head, entry);
  }

  lemma SuffixIsEnding(head: seq<string>, own: seq<string>)
    requires head != [] && own != []
    ensures EndsWith(Join(head + own), "." + Join(own))
  {
    JoinAppends(head, own);
    var name, end := Join(head + own), "." + Join(own);
    assert name == Join(head) + end;
  }

  /** The string test means label-wise subdomain matching, for any entry whatsoever. */
  lemma CoversMeansSuffix(labels: seq<string>, entry: string)
    requires labels != [] && DotFree(labels)
    ensures Covers(Join(labels), entry) <==> IsSuffix(Split(entry), labels)
  {
    var name, own := Join(labels), Split(entry);
    JoinSplit(entry);
    if name == entry {
      DottedNameIsExact(labels);
    } else if EndsWith(name, "." + entry) {
      var head := name[..|name| - |"." + entry|];
      assert name == head + ("." + entry) == head + "." + entry;
      EndingIsSuffix(labels, head, entry);
    }
    if IsSuffix(own, labels) && own != labels {
      var head := labels[..|labels| - |own|];
      assert labels == head + own;
      SuffixIsEnding(head, own);
    }
  }

  /** A name of non-empty, dot-free labels is blocked exactly when the labels of some entry, its
      trailing dots dropped, are the last labels of the name. */
  lemma BlockedMeansSubdomain(labels: seq<string>, blocked: seq<string>)
    requires labels != [] && DotFree(labels)
    ensures IsBlocked(Join(labels), blocked) <==> exists b :: b in blocked && IsSuffix(Split(TrimDots(b)), labels)
  {
    LastCharOfJoin(labels);
    assert TrimDots(Join(labels)) == Join(labels);
    forall b | b in blocked ensures Covers(Join(labels), TrimDots(b)) <==> IsSuffix(Split(TrimDots(b)), labels) {
      CoversMeansSuffix(labels, TrimDots(b));
    }
  }

  /** The verdict on a name of non-empty labels is label-wise, whatever the blocklist. */
  ghost predicate AlwaysLabelWise(labels: seq<string>) {
    forall blocked :: IsBlocked(Join(labels), blocked) <==> exists b :: b in blocked && IsSuffix(Split(TrimDots(b)), labels)
  }

  /** Trimming drops exactly the trailing dots. */
  lemma {:induction false} TrimDotsDropsDots(s: string) returns (dots: string)
    ensures s == TrimDots(s) + dots && forall c :: c in dots ==> c == '.'
    ensures TrimDots(s) != "" ==> TrimDots(s)[|TrimDots(s)| - 1] != '.'
  {
    dots := "";
    if s != "" && s[|s| - 1] == '.' {
      var fewer := TrimDotsDropsDots(s[..|s| - 1]);
      dots := fewer + ".";
      assert s == s[..|s| - 1] + ".";
    }
  }

  lemma {:induction false} TrimDotsIsStable(s: string)
    ensures TrimDots(TrimDots(s)) == TrimDots(s)
  {
    if s != "" && s[|s| - 1] == '.' { TrimDotsIsStable(s[..|s| - 1]); }
  }

  lemma {:induction false} JoinEndsLikeItsLast(labels: seq<string>)
    requires labels != [] && labels[|labels| - 1] != ""
    ensures var s, last := Join(labels), labels[|labels| - 1]; s != "" && s[|s| - 1] == last[|last| - 1]
  {
    if |labels| > 1 { JoinEndsLikeItsLast(labels[1..]); }
  }

  /** The dotted name itself, as an entry, covers the name but is no suffix of labels with dots. */
  lemma OwnNameIsNoSuffix(labels: seq<string>)
    requires labels != [] && forall l :: l in labels ==> l != ""
    requires IsSuffix(Split(TrimDots(Join(labels))), labels)
    ensures forall l :: l in labels ==> '.' !in l
  {
    hide Join, Split;
    var name, own := Join(labels), Split(TrimDots(Join(labels)));
    var head := labels[..|labels| - |own|];
    var last := labels[|labels| - 1];
    assert labels == head + own && last == own[|own| - 1];
    SplitHasNoDots(TrimDots(name));
    assert last in labels && last[|last| - 1] in last;
    JoinEndsLikeItsLast(labels);
    JoinSplit(name);
    if head != [] { JoinAppends(head, own); }
    assert own == labels;
  }

  /** The verdict is label-wise for every blocklist exactly when no label contains a dot. */
  lemma VerdictIsLabelWiseExactly(labels: seq<string>)
    requires labels != [] && forall l :: l in labels ==> l != ""
    ensures AlwaysLabelWise(labels) <==> forall l :: l in labels ==> '.' !in l
  {
    if forall l :: l in labels ==> '.' !in l {
      assert forall i :: 0 <= i < |labels| ==> labels[i] in labels;
      forall blocked ensures IsBlocked(Join(labels), blocked) <==> exists b :: b in blocked && IsSuffix(Split(TrimDots(b)), labels) {
        BlockedMeansSubdomain(labels, blocked);
      }
    }
    if AlwaysLabelWise(labels) {
      var name := Join(labels);
      assert name in [name] && IsBlocked(name, [name]);
      OwnNameIsNoSuffix(labels);
    }
  }

  /** From the packet to the verdict: for every query whose name is written as `labels`, the name is
      their dotted join, and it is blocked exactly when some entry's labels are its last ones. */
  lemma QueryIsBlockedByLabels(query: seq<byte>, labels: seq<Label>, decode: Decoder, blocked: seq<string>)
    requires WrittenAt(query, HEADER, labels) && labels != [] && DotFree(Texts(labels, decode))
    ensures QnameOf(query, decode) == Some(Join(Texts(labels, decode)))
    ensures IsBlocked(QnameOf(query, decode).value, blocked)
        <==> exists b :: b in blocked && IsSuffix(Split(TrimDots(b)), Texts(labels, decode))
  {
    ReadsWhatIsWritten(query, HEADER, labels);
    BlockedMeansSubdomain(Texts(labels, decode), blocked);
  }

  // ---- ASCII names ------------------------------------------------------------------------

  function ToLower(b: byte): char {
    if 65 <= b <= 90 then (b as int + 32) as char else b as int as char
  }

  /** ASCII capitals become small letters, and every other ASCII byte stays. */
  lemma ToLowerMeans(b: byte)
    ensures ToLower(b) as int == b as int + if 'A' as int <= b as int && b as int <= 'Z' as int then 'a' as int - 'A' as int else 0
  {}

  /** What decoding does to a label of ASCII bytes. */
  ghost predicate DecodesAscii(decode: Decoder) {
    forall l: Label :: (forall i :: 0 <= i < |l| ==> l[i] < 128) ==> decode(l) == seq(|l|, i requires 0 <= i < |l| => ToLower(l[i]))
  }

  /** Host names: ASCII labels that contain no dot decode to non-empty, dot-free text. */
  lemma HostNamesAreDotFree(labels: seq<Label>, decode: Decoder)
    requires DecodesAscii(decode) && AllFit(labels)
    requires forall l: Label, i: int :: l in labels && 0 <= i < |l| ==> l[i] < 128 && l[i] != 46
    ensures DotFree(Texts(labels, decode))
  {}

  /** Without that the text test is not label-wise: one label spelled with a dot reads as two. */
  lemma DottedLabelReadsAsTwo(decode: Decoder, first: string, second: string, query: seq<byte>, bytes: Label)
    requires WrittenAt(query, HEADER, [bytes]) && decode(bytes) == first + "." + second
    requires second != "" && '.' !in second
    ensures QnameOf(query, decode).Some? && IsBlocked(QnameOf(query, decode).value, [second])
    ensures !IsSuffix([second], [first + "." + second])
  {
    ReadsWhatIsWritten(query, HEADER, [bytes]);
    var name := first + "." + second;
    assert Texts([bytes], decode) == [name];
    assert Join([name]) == name;
    assert second[|second| - 1] in second;
    assert name[|name| - 1] == second[|second| - 1];
    assert TrimDots(name) == name && TrimDots(second) == second;
    assert name[|name| - |"." + second|..] == "." + second;
    assert second in [second] && Covers(TrimDots(name), TrimDots(second));
  }

  // ---- The answer -------------------------------------------------------------------------

  function NxdomainByte(query: seq<byte>, i: nat): byte
    requires i < |query|
  {
    if i == 2 && query[2] < 0x80 then query[2] + 0x80
    else if i == 3 then 3
    else if 6 <= i <= 11 then 0
    else query[i]
  }

  function Nxdomain(query: seq<byte>): seq<byte> { seq(|query|, i requires 0 <= i < |query| => NxdomainByte(query, i)) }

  /** Flips the response bit, sets the code, and zeroes the record counts, in a copy. */
  method MakeNxdomain(query: array<byte>) returns (resp: array<byte>)
    requires query.Length >= HEADER
    ensures fresh(resp) && resp[..] == Nxdomain(query[..])
    ensures resp.Length == query.Length && resp[3] == 3
    ensures resp[2] as int == query[2] as int % 128 + 128
    ensures forall i :: 6 <= i < 12 ==> resp[i] == 0
    ensures forall i :: 0 <= i < query.Length && !(2 <= i <= 3) && !(6 <= i < 12) ==> resp[i] == query[i]
  {
    resp := new byte[query.Length](i requires 0 <= i < query.Length reads query => query[i]);
    if resp[2] < 0x80 { resp[2] := resp[2] + 0x80; }
    resp[3] := 3;
    resp[6] := 0;
    resp[7] := 0;
    resp[8] := 0;
    resp[9] := 0;
    resp[10] := 0;
    resp[11] := 0;
  }

  lemma SameTail(a: seq<byte>, b: seq<byte>, pos: nat, from: nat, to: nat)
    requires |a| == |b| && pos <= from <= to <= |a| && a[pos..] == b[pos..]
    ensures a[from..to] == b[from..to] && a[to..] == b[to..]
  {}

  lemma {:induction false} SameTailSameLabels(a: seq<byte>, b: seq<byte>, pos: nat)
    requires |a| == |b| && pos <= |a| && a[pos..] == b[pos..]
    ensures LabelsAt(a, pos) == LabelsAt(b, pos)
    decreases |a| - pos
  {
    if pos < |a| {
      assert a[pos] == a[pos..][0] == b[pos..][0] == b[pos];
      var end := pos + 1 + a[pos] as nat;
      if end <= |a| {
        SameTail(a, b, pos, pos + 1, end);
        SameTailSameLabels(a, b, end);
      }
    }
  }

  /** The answer is a response with the query's id that says the queried name does not exist. */
  lemma NxdomainAnswersTheQuery(query: seq<byte>, decode: Decoder)
    requires QnameOf(query, decode).Some?
    ensures var resp := Nxdomain(query);
            && |resp| == |query| && resp[0] == query[0] && resp[1] == query[1]
            && resp[2] as int == query[2] as int % 128 + 128 && resp[3] == 3
            && resp[4] == query[4] && resp[5] == query[5] && (forall i :: 6 <= i < 12 ==> resp[i] == 0) && resp[12..] == query[12..]
            && QnameOf(resp, decode) == QnameOf(query, decode)
  {
    var resp := Nxdomain(query);
    assert resp[HEADER..] == query[HEADER..];
    SameTailSameLabels(query, resp, HEADER);
  }
}
