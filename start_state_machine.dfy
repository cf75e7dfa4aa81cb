/**
 * The arrival gate: derives the image id, subgroup and extension from a raw object key,
 * checks them against the allow-lists, and either builds the state machine's input or
 * rejects the key with a numbered list of reasons.
 */
module StartStateMachine {
  import opened Wrappers
  import opened Text
  import opened Seqs
  import opened Events

  const ValidExtensions: seq<string> := ["fits"]
  const ValidSubgroups: seq<string> := ["flc", "flt"]

  /** `image_id, extension = key.split('.')`: the unpacking succeeds only for exactly one '.'. */
  function SplitKey(key: string): (r: Result<(string, string)>)
    ensures r.Ok? <==> Count(key, '.') == 1
    ensures r.Err? ==> r.error == ValueError
    ensures r.Ok? ==> key == r.value.0 + "." + r.value.1 && '.' !in r.value.0 && '.' !in r.value.1
  {
    var parts := Split(key, '.');
    SplitJoin(key, '.');
    if |parts| == 2 then
      assert parts == parts[..1] + [parts[1]];
      Ok((parts[0], parts[1]))
    else Err(ValueError)
  }

  /** Position of the first `c` in `s`, or `|s|` when there is none. */
  function FirstIndex(s: string, c: char): (k: nat)
    ensures k <= |s|
    ensures c !in s[..k]
    ensures k < |s| ==> s[k] == c
  {
    if s == [] then 0
    else if s[0] == c then 0
    else
      var k := 1 + FirstIndex(s[1..], c);
      assert s[..k] == [s[0]] + s[1..][..k - 1];
      k
  }

  /** `subgroup = image_id[index + 1:]`: the text after the first '_', or "" when there is none. */
  function SubgroupOf(imageId: string): string
  {
    SliceFrom(imageId, FirstIndex(imageId, '_') + 1)
  }

  /** The subgroup is what follows the first underscore, and is empty when there is no underscore. */
  lemma SubgroupAfterFirstUnderscore(imageId: string)
    ensures '_' !in imageId ==> SubgroupOf(imageId) == ""
    ensures '_' in imageId ==>
      (exists k :: 0 <= k < |imageId| && '_' !in imageId[..k] && imageId == imageId[..k] + "_" + SubgroupOf(imageId))
  {
    var k := FirstIndex(imageId, '_');
    if '_' in imageId {
      assert k < |imageId|;
      assert imageId == imageId[..k] + [imageId[k]] + imageId[k + 1..];
    } else {
      assert k == |imageId|;
    }
  }

  /** The loop at lines 45-50: counts the characters before the first '_'. */
  method UnderscoreIndex(imageId: string) returns (index: nat)
    ensures index == FirstIndex(imageId, '_')
  {
    index := 0;
    for k := 0 to |imageId|
      invariant index == k
      invariant '_' !in imageId[..k]
    {
      if imageId[k] == '_' {
        break;
      }
      index := index + 1;
    }
    FirstIndexUnique(imageId, '_', index);
  }

  /** Any position that satisfies FirstIndex's contract is FirstIndex. */
  lemma {:induction false} FirstIndexUnique(s: string, c: char, k: nat)
    requires k <= |s| && c !in s[..k] && (k < |s| ==> s[k] == c)
    ensures k == FirstIndex(s, c)
  {
  }

  /** The opening of a rejection message, up to the list of valid elements. */
  function ErrorHeader(name: string, input: string): string
  {
    "Invalid " + name + "\n\t" + Title(name) + " found: " + input
    + "\n\t" + Title(name) + " must be one of the following: "
  }

  /** `get_error_msg`: the header followed by the valid elements separated by ", ". */
  method GetErrorMsg(name: string, input: string, valid: seq<string>) returns (msg: string)
    ensures msg == ErrorHeader(name, input) + Join(valid, ", ")
  {
    var header := ErrorHeader(name, input);
    msg := header;
    for index := 0 to |valid|
      invariant msg == header + Join(valid[..index], ", ") + (if 0 < index < |valid| then ", " else "")
    {
      assert valid[..index + 1] == valid[..index] + [valid[index]];
      if index > 0 {
        JoinSnoc(valid[..index], valid[index], ", ");
      }
      if index == |valid| - 1 {
        msg := msg + valid[index];
      } else {
        msg := msg + valid[index] + ", ";
      }
    }
    assert valid[..|valid|] == valid;
  }

  /** One entry of the `elements` dictionary: what is checked and against which list. */
  datatype Element = Element(name: string, input: string, valid: seq<string>)

  /** The message for each element whose input is not among its valid values, in order. */
  function Problems(elements: seq<Element>): seq<string>
  {
    if elements == [] then []
    else
      var e := elements[|elements| - 1];
      Problems(elements[..|elements| - 1])
      + (if e.input in e.valid then [] else [ErrorHeader(e.name, e.input) + Join(e.valid, ", ")])
  }

  /** The loop at lines 58-64: every element is checked; no check stops the others. */
  method CollectProblems(elements: seq<Element>) returns (problems: seq<string>)
    ensures problems == Problems(elements)
  {
    problems := [];
    for i := 0 to |elements|
      invariant problems == Problems(elements[..i])
    {
      assert elements[..i + 1][..i] == elements[..i];
      var e := elements[i];
      if e.input !in e.valid {
        var msg := GetErrorMsg(e.name, e.input, e.valid);
        problems := problems + [msg];
      }
    }
    assert elements[..|elements|] == elements;
  }

  /** The two checks the gate makes, extension first. */
  function GateElements(extension: string, subgroup: string): seq<Element>
  {
    [Element("extension", extension, ValidExtensions), Element("subgroup", subgroup, ValidSubgroups)]
  }

  /** Both checks always run: the extension's message (if any) comes before the subgroup's. */
  lemma GateProblems(extension: string, subgroup: string)
    ensures Problems(GateElements(extension, subgroup)) ==
      (if extension in ValidExtensions then []
       else [ErrorHeader("extension", extension) + Join(ValidExtensions, ", ")])
      + (if subgroup in ValidSubgroups then []
         else [ErrorHeader("subgroup", subgroup) + Join(ValidSubgroups, ", ")])
    ensures Problems(GateElements(extension, subgroup)) == [] <==>
      extension in ValidExtensions && subgroup in ValidSubgroups
  {
    TwoProblems(Element("extension", extension, ValidExtensions), Element("subgroup", subgroup, ValidSubgroups));
  }

  /** Two checks give the first one's message, if any, then the second one's. */
  lemma TwoProblems(a: Element, b: Element)
    ensures Problems([a, b]) ==
      (if a.input in a.valid then [] else [ErrorHeader(a.name, a.input) + Join(a.valid, ", ")])
      + (if b.input in b.valid then [] else [ErrorHeader(b.name, b.input) + Join(b.valid, ", ")])
  {
    var es := [a, b];
    var one := [a];
    assert es[..|es| - 1] == one && one[..0] == [];
    var ma := if a.input in a.valid then [] else [ErrorHeader(a.name, a.input) + Join(a.valid, ", ")];
    var mb := if b.input in b.valid then [] else [ErrorHeader(b.name, b.input) + Join(b.valid, ", ")];
    assert Problems(one) == [] + ma;
    assert Problems(es) == Problems(one) + mb;
    assert [] + ma == ma;
  }

  /** The lines printed for each reason, numbered from 1. */
  method NumberProblems(problems: seq<string>) returns (lines: seq<string>)
    ensures |lines| == |problems|
    ensures forall i :: 0 <= i < |problems| ==> lines[i] == NatToString(i + 1) + ") " + problems[i]
  {
    lines := [];
    for count := 0 to |problems|
      invariant |lines| == count
      invariant forall i :: 0 <= i < count ==> lines[i] == NatToString(i + 1) + ") " + problems[i]
    {
      lines := lines + [NatToString(count + 1) + ") " + problems[count]];
    }
  }

  /** What the gate parses out of a key with exactly one '.'. */
  datatype Parsed = Parsed(imageId: string, subgroup: string, extension: string)

  /** Lines 43-51 as a function of the key. */
  function ParseKey(key: string): Result<Parsed>
  {
    match SplitKey(key)
    case Err(e) => Err(e)
    case Ok((stem, extension)) =>
      var imageId := LastSegment(stem, '/');
      Ok(Parsed(imageId, SubgroupOf(imageId), extension))
  }

  /** A key the gate lets through: one '.', a valid extension and a valid subgroup. */
  predicate Accepted(key: string)
  {
    ParseKey(key).Ok? && ParseKey(key).value.extension in ValidExtensions
    && ParseKey(key).value.subgroup in ValidSubgroups
  }

  /** The reasons a parsed key is rejected for. */
  function KeyProblems(p: Parsed): seq<string>
  {
    Problems(GateElements(p.extension, p.subgroup))
  }

  /** The printed report: a heading naming the key, then one numbered line per reason. */
  predicate Report(key: string, report: seq<string>, problems: seq<string>)
  {
    |report| == |problems| + 1 &&
    report[0] == "File \"" + key + "\" not processed.\nReason(s):" &&
    forall i :: 0 <= i < |problems| ==> report[i + 1] == NatToString(i + 1) + ") " + problems[i]
  }

  /** What the gate does with one arrival. */
  datatype Outcome =
    | Failed(error: Failure)          // the key could not be unpacked
    | Rejected(report: seq<string>)   // printed, then SystemExit; no execution started
    | Started(input: Event)           // `start_execution` with this input

  /** `lambda_handler` from the object's bucket and key onwards. */
  method LambdaHandler(bucket: string, key: string) returns (r: Outcome)
    ensures r.Failed? <==> Count(key, '.') != 1
    ensures r.Started? <==> Accepted(key)
    ensures r.Started? ==>
      (r.input == InitialEvent(ParseKey(key).value.imageId, ParseKey(key).value.subgroup, key, bucket))
    ensures r.Rejected? ==>
      (ParseKey(key).Ok? && Report(key, r.report, KeyProblems(ParseKey(key).value)))
  {
    var split := SplitKey(key);
    if split.Err? {
      return Failed(split.error);
    }
    var (stem, extension) := split.value;
    var imageId := LastSegment(stem, '/');
    var index := UnderscoreIndex(imageId);
    var subgroup := SliceFrom(imageId, index + 1);
    assert ParseKey(key) == Ok(Parsed(imageId, subgroup, extension));
    r := Validate(bucket, key, Parsed(imageId, subgroup, extension));
  }

  /** Lines 53-79: both checks, then either the report or the execution input. */
  method Validate(bucket: string, key: string, p: Parsed) returns (r: Outcome)
    ensures !r.Failed?
    ensures r.Started? <==> p.extension in ValidExtensions && p.subgroup in ValidSubgroups
    ensures r.Started? ==> r.input == InitialEvent(p.imageId, p.subgroup, key, bucket)
    ensures r.Rejected? ==> Report(key, r.report, KeyProblems(p))
  {
    var problems := CollectProblems(GateElements(p.extension, p.subgroup));
    GateProblems(p.extension, p.subgroup);
    if |problems| > 0 {
      var lines := NumberProblems(problems);
      var report := ["File \"" + key + "\" not processed.\nReason(s):"] + lines;
      assert Report(key, report, problems);
      return Rejected(report);
    }
    r := Started(InitialEvent(p.imageId, p.subgroup, key, bucket));
  }

  /** An id made of an underscore-free stem, an underscore and a rest has that rest as subgroup. */
  lemma SubgroupOfParts(stem: string, rest: string)
    requires '_' !in stem
    ensures SubgroupOf(stem + "_" + rest) == rest
  {
    var id := stem + "_" + rest;
    assert id[..|stem|] == stem && id[|stem|] == '_';
    FirstIndexUnique(id, '_', |stem|);
    assert id[|stem| + 1..] == rest;
  }

  /** The first example in the handler's comments: the image id of an "spt" file has subgroup "spt". */
  lemma ExampleSpt()
    ensures SubgroupOf("idpya7i2q_spt") == "spt"
  {
    SubgroupOfParts("idpya7i2q", "spt");
    assert "idpya7i2q" + "_" + "spt" == "idpya7i2q_spt";
  }

  /** The same example as the whole key: "spt" is not a valid subgroup, so the gate rejects it. */
  lemma ExampleSptRejected()
    ensures !Accepted("hst/public/idpy/idpya7i2q/idpya7i2q_spt.fits")
  {
    ExampleSpt();
    var key := "hst/public/idpy/idpya7i2q/idpya7i2q_spt.fits";
    match SplitKey(key)
    case Err(_) =>
    case Ok((stem, extension)) =>
      ExampleSptStem(stem, extension);
      ExampleSptImageId();
      assert ParseKey(key) == Ok(Parsed("idpya7i2q_spt", "spt", extension));
  }

  /** The image id is the stem's text after its last '/'. */
  lemma ExampleSptImageId()
    ensures LastSegment("hst/public/idpy/idpya7i2q/idpya7i2q_spt", '/') == "idpya7i2q_spt"
  {
    LastSegmentAfter("hst/public/idpy/idpya7i2q", '/', "idpya7i2q_spt");
    assert "hst/public/idpy/idpya7i2q" + ['/'] + "idpya7i2q_spt" == "hst/public/idpy/idpya7i2q/idpya7i2q_spt";
  }

  /** The only way to cut the example key at a '.' is before "fits". */
  lemma ExampleSptStem(stem: string, extension: string)
    requires "hst/public/idpy/idpya7i2q/idpya7i2q_spt.fits" == stem + "." + extension
    ensures stem == "hst/public/idpy/idpya7i2q/idpya7i2q_spt"
  {
    var key := "hst/public/idpy/idpya7i2q/idpya7i2q_spt.fits";
    assert key[|stem|] == '.';
    assert forall i :: 0 <= i < |key| && i != 39 ==> key[i] != '.';
    assert stem == key[..|stem|];
  }

  /** The second example: the subgroup keeps everything after the first '_'. */
  lemma ExampleFltThumb()
    ensures SubgroupOf("idpya7i0q_flt_thumb") == "flt_thumb"
  {
    SubgroupOfParts("idpya7i0q", "flt_thumb");
    assert "idpya7i0q" + "_" + "flt_thumb" == "idpya7i0q_flt_thumb";
  }
}
