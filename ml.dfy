/** The ML verification service: it decodes a base64 image (possibly a data URL), runs the
    detector, folds the detected boxes into a verdict and echoes the accident id. The
    detector itself is an input: the boxes it reports, grouped by result. */
module MlService {
  import opened Wrappers
  import opened Text
  import opened AccidentSchema
  import opened AccidentStore
  import opened Base64
  import opened Sequences

  // ------------------------------------------------------------ classify_severity

  /** The confidence bands: 0.85 and above critical, 0.65 high, 0.45 medium, else low. */
  function ClassifySeverity(confidence: real): Severity {
    if confidence >= 0.85 then Critical
    else if confidence >= 0.65 then High
    else if confidence >= 0.45 then Medium
    else Low
  }

  lemma ClassifyBands(c: real)
    ensures ClassifySeverity(c) == Critical <==> 0.85 <= c
    ensures ClassifySeverity(c) == High <==> 0.65 <= c < 0.85
    ensures ClassifySeverity(c) == Medium <==> 0.45 <= c < 0.65
    ensures ClassifySeverity(c) == Low <==> c < 0.45
  {
  }

  /** A higher confidence never gives a lower severity. */
  lemma ClassifyMonotone(a: real, b: real)
    requires a <= b
    ensures SeverityRank(ClassifySeverity(a)) <= SeverityRank(ClassifySeverity(b))
  {
  }

  // ------------------------------------------------------------ decode_base64_image

  /** The text after the first comma, if there is one (the payload of a data URL, section 3
      of RFC 2397); text without a comma is returned unchanged. */
  function StripDataUrlPrefix(s: string): (r: string)
    ensures ',' !in s ==> r == s
    ensures ',' in s ==> |r| < |s| && s == s[..|s| - |r| - 1] + [','] + r && ',' !in s[..|s| - |r| - 1]
  {
    match IndexOf(s, ',')
    case None => s
    case Some(i) =>
      assert s == s[..i] + [','] + s[i + 1..];
      s[i + 1..]
  }

  /** A data URL whose header holds no comma gives back its payload. */
  lemma StripDataUrl(header: string, payload: string)
    requires ',' !in header
    ensures StripDataUrlPrefix(header + [','] + payload) == payload
  {
    var s := header + [','] + payload;
    var r := StripDataUrlPrefix(s);
    var j := |s| - |r| - 1;
    assert forall k :: 0 <= k < |header| ==> s[k] == header[k];
    assert s[|header|] == ',';
    assert forall k :: 0 <= k < j ==> s[..j][k] == s[k];
    assert j == |header|;
    assert s[|header| + 1..] == payload;
  }

  /** `base64.b64decode` without validation: characters outside the alphabet and the pad are
      discarded, then the rest must be a well-padded encoding. */
  function LenientDecode(s: string): Option<seq<Byte>> {
    Decode(Keep(s, IsBase64Char))
  }

  /** The bytes of the image in a request, or `None` when the text does not decode or the
      bytes are not an image (`isImage` stands for the image library). */
  function DecodeImage(s: string, isImage: seq<Byte> -> bool): (r: Option<seq<Byte>>)
    ensures r.Some? ==> LenientDecode(StripDataUrlPrefix(s)) == r && isImage(r.value)
    ensures r.None? ==> LenientDecode(StripDataUrlPrefix(s)).None? || !isImage(LenientDecode(StripDataUrlPrefix(s)).value)
  {
    match LenientDecode(StripDataUrlPrefix(s))
    case None => None
    case Some(b) => if isImage(b) then Some(b) else None
  }

  /** The image the backend stores for an upload reaches the detector as the uploaded
      bytes, whether sent bare or as a data URL. */
  lemma UploadedImageDecodes(b: seq<Byte>, header: string)
    requires ',' !in header
    ensures LenientDecode(StripDataUrlPrefix(Encode(b))) == Some(b)
    ensures LenientDecode(StripDataUrlPrefix(header + [','] + Encode(b))) == Some(b)
  {
    EncodeAlphabet(b);
    KeepEverything(Encode(b), IsBase64Char);
    DecodeEncode(b);
    StripDataUrl(header, Encode(b));
  }

  // ------------------------------------------------------------ run_detection

  /** One detected box: its class name and its confidence. */
  datatype Box = Box(className: string, confidence: real)

  const AccidentKeywords: seq<string> :=
    ["accident", "crash", "collision", "damage", "severe", "moderate", "car", "vehicle"]

  /** The lower-cased class name contains one of the accident keywords. */
  predicate IsAccidentClass(name: string) {
    exists k :: 0 <= k < |AccidentKeywords| && Contains(ToLower(name), AccidentKeywords[k])
  }

  predicate AnyAccidentClass(bs: seq<Box>) {
    exists k :: 0 <= k < |bs| && IsAccidentClass(bs[k].className)
  }

  /** The boxes of all results, in order; a result without boxes contributes none. */
  function Flatten(results: seq<Option<seq<Box>>>): seq<Box> {
    if |results| == 0 then []
    else
      var last := results[|results| - 1];
      Flatten(results[..|results| - 1]) + (if last.Some? then last.value else [])
  }

  function RealMax(a: real, b: real): real {
    if a >= b then a else b
  }

  /** The largest of `m` and the confidences of `bs`. */
  function MaxFrom(m: real, bs: seq<Box>): real {
    if |bs| == 0 then m else RealMax(MaxFrom(m, bs[..|bs| - 1]), bs[|bs| - 1].confidence)
  }

  /** The largest confidence of a non-empty list of boxes. */
  function MaxConfidence(bs: seq<Box>): real
    requires |bs| > 0
  {
    if |bs| == 1 then bs[0].confidence else RealMax(MaxConfidence(bs[..|bs| - 1]), bs[|bs| - 1].confidence)
  }

  /** The outcome of a detection run, without the rounding and the timing. */
  datatype Detection = Detection(isAccident: bool, confidence: real, severity: Severity, detections: seq<Box>)

  /** What the detection loop and the fix-up after it compute from the boxes. */
  function Aggregate(bs: seq<Box>): Detection {
    var accident := |bs| > 0;
    var confidence := if accident && !AnyAccidentClass(bs) then MaxConfidence(bs) else MaxFrom(0.0, bs);
    Detection(accident, confidence, if accident then ClassifySeverity(confidence) else Low, bs)
  }

  lemma {:induction false} MaxFromBounds(m: real, bs: seq<Box>)
    ensures m <= MaxFrom(m, bs)
    ensures forall k :: 0 <= k < |bs| ==> bs[k].confidence <= MaxFrom(m, bs)
    ensures MaxFrom(m, bs) == m || exists k :: 0 <= k < |bs| && bs[k].confidence == MaxFrom(m, bs)
  {
    if |bs| > 0 {
      var init := bs[..|bs| - 1];
      MaxFromBounds(m, init);
      assert forall k :: 0 <= k < |init| ==> init[k] == bs[k];
    }
  }

  lemma {:induction false} MaxConfidenceBounds(bs: seq<Box>)
    requires |bs| > 0
    ensures forall k :: 0 <= k < |bs| ==> bs[k].confidence <= MaxConfidence(bs)
    ensures exists k :: 0 <= k < |bs| && bs[k].confidence == MaxConfidence(bs)
  {
    if |bs| == 1 {
      assert bs[0].confidence == MaxConfidence(bs);
    } else {
      var init := bs[..|bs| - 1];
      MaxConfidenceBounds(init);
      assert forall k :: 0 <= k < |init| ==> init[k] == bs[k];
      var k :| 0 <= k < |init| && init[k].confidence == MaxConfidence(init);
      if MaxConfidence(bs) == MaxConfidence(init) {
        assert bs[k].confidence == MaxConfidence(bs);
      } else {
        assert bs[|bs| - 1].confidence == MaxConfidence(bs);
      }
    }
  }

  /** No box: no accident, confidence 0, severity low. */
  lemma AggregateEmpty()
    ensures Aggregate([]) == Detection(false, 0.0, Low, [])
  {
  }

  /** Any box makes an accident, with the severity of the reported confidence. */
  lemma AggregateNonEmpty(bs: seq<Box>)
    requires |bs| > 0
    ensures Aggregate(bs).isAccident
    ensures Aggregate(bs).severity == ClassifySeverity(Aggregate(bs).confidence)
  {
  }

  /** The reported confidence is the largest box confidence (confidences are never
      negative, the detector's threshold being 0.25). */
  lemma AggregateIsMax(bs: seq<Box>)
    requires forall k :: 0 <= k < |bs| ==> bs[k].confidence >= 0.0
    ensures forall k :: 0 <= k < |bs| ==> bs[k].confidence <= Aggregate(bs).confidence
    ensures |bs| > 0 ==> exists k :: 0 <= k < |bs| && bs[k].confidence == Aggregate(bs).confidence
    ensures Aggregate(bs).confidence >= 0.0
  {
    MaxFromBounds(0.0, bs);
    if |bs| > 0 {
      MaxConfidenceBounds(bs);
      if AnyAccidentClass(bs) {
        var k :| 0 <= k < |bs| && IsAccidentClass(bs[k].className);
        assert bs[k].confidence <= Aggregate(bs).confidence;
      }
    }
  }

  lemma AnyAccidentClassAppend(bs: seq<Box>, b: Box)
    ensures AnyAccidentClass(bs + [b]) <==> AnyAccidentClass(bs) || IsAccidentClass(b.className)
  {
    var s := bs + [b];
    assert s[|bs|] == b;
    if AnyAccidentClass(bs) {
      var k :| 0 <= k < |bs| && IsAccidentClass(bs[k].className);
      assert s[k] == bs[k];
    }
    if AnyAccidentClass(s) {
      var k :| 0 <= k < |s| && IsAccidentClass(s[k].className);
      if k < |bs| { assert s[k] == bs[k]; }
    }
  }

  datatype HttpError = HttpError(status: nat, detail: string)

  /** The inner loop of `run_detection` over the boxes of one result: each box is appended
      to the detections, and the running maximum and accident flag follow the detections. */
  method ScanBoxes(detections0: seq<Box>, maxConfidence0: real, isAccident0: bool, boxes: seq<Box>)
    returns (detections: seq<Box>, maxConfidence: real, isAccident: bool)
    requires maxConfidence0 == MaxFrom(0.0, detections0)
    requires isAccident0 == AnyAccidentClass(detections0)
    ensures detections == detections0 + boxes
    ensures maxConfidence == MaxFrom(0.0, detections)
    ensures isAccident == AnyAccidentClass(detections)
  {
    detections, maxConfidence, isAccident := detections0, maxConfidence0, isAccident0;
    var j := 0;
    while j < |boxes|
      invariant 0 <= j <= |boxes|
      invariant detections == detections0 + boxes[..j]
      invariant maxConfidence == MaxFrom(0.0, detections)
      invariant isAccident == AnyAccidentClass(detections)
    {
      var box := boxes[j];
      AnyAccidentClassAppend(detections, box);
      assert (detections + [box])[..|detections|] == detections;
      detections := detections + [box];
      assert boxes[..j + 1] == boxes[..j] + [box];
      if IsAccidentClass(box.className) {
        isAccident := true;
        maxConfidence := RealMax(maxConfidence, box.confidence);
      } else if box.confidence > maxConfidence {
        maxConfidence := box.confidence;
      }
      j := j + 1;
    }
    assert boxes[..j] == boxes;
  }

  /** `run_detection`: 503 without a model; otherwise the loop over the results and their
      boxes, then the fix-up that makes any detection an accident. */
  method RunDetection(modelLoaded: bool, results: seq<Option<seq<Box>>>) returns (r: Result<Detection, HttpError>)
    ensures !modelLoaded ==> r == Err(HttpError(503, "ML model not loaded"))
    ensures modelLoaded ==> r == Ok(Aggregate(Flatten(results)))
  {
    if !modelLoaded {
      return Err(HttpError(503, "ML model not loaded"));
    }
    var detections: seq<Box> := [];
    var maxConfidence := 0.0;
    var isAccident := false;
    var i := 0;
    while i < |results|
      invariant 0 <= i <= |results|
      invariant detections == Flatten(results[..i])
      invariant maxConfidence == MaxFrom(0.0, detections)
      invariant isAccident == AnyAccidentClass(detections)
    {
      assert results[..i + 1][..i] == results[..i];
      if results[i].Some? {
        detections, maxConfidence, isAccident := ScanBoxes(detections, maxConfidence, isAccident, results[i].value);
      }
      i := i + 1;
    }
    assert results[..i] == results;
    if |detections| > 0 && !isAccident {
      isAccident := true;
      maxConfidence := MaxConfidence(detections);
    }
    r := Ok(Detection(isAccident, maxConfidence, if isAccident then ClassifySeverity(maxConfidence) else Low,
                      detections));
  }

  // ------------------------------------------------------------ /detect

  datatype DetectRequest = DetectRequest(image: string, accidentId: Option<string>)

  datatype DetectResponse = DetectResponse(detection: Detection, accidentId: Option<string>)

  /** `POST /detect`: 400 when the image does not decode, then the errors of the detection
      run, else its result with the request's accident id. */
  method DetectAccident(request: DetectRequest, isImage: seq<Byte> -> bool, modelLoaded: bool,
                        results: seq<Option<seq<Box>>>) returns (r: Result<DetectResponse, HttpError>)
    ensures DecodeImage(request.image, isImage).None? ==> r.Err? && r.error.status == 400
    ensures DecodeImage(request.image, isImage).Some? && !modelLoaded ==> r == Err(HttpError(503, "ML model not loaded"))
    ensures DecodeImage(request.image, isImage).Some? && modelLoaded ==>
              r == Ok(DetectResponse(Aggregate(Flatten(results)), request.accidentId))
  {
    var image := DecodeImage(request.image, isImage);
    if image.None? {
      return Err(HttpError(400, "Invalid base64 image"));
    }
    var detection := RunDetection(modelLoaded, results);
    if detection.Err? {
      return Err(detection.error);
    }
    r := Ok(DetectResponse(detection.value, request.accidentId));
  }

  /** The verdict the backend reads from a reply: the detector always names a severity. */
  function VerdictOf(d: Detection): (v: Verdict)
    ensures v.isAccident == d.isAccident && v.confidence == d.confidence
    ensures v.severity == Some(d.severity)
  {
    Verdict(d.isAccident, d.confidence, Some(d.severity))
  }

  /** A reply with no detection is not empty: its `low` severity replaces the severity the
      record was created with, and the record is marked unverified with confidence 0. */
  lemma NoDetectionLowersSeverity(current: Accident, snapshot: Accident)
    ensures var merged := ApplyVerdict(current, snapshot, VerdictOf(Aggregate([])));
            merged.severity == Low && !merged.verified && merged.mlConfidence == Some(0.0)
  {
  }
}
