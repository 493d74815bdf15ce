/** The body of the capture loop in `main` (vlp/vlp/main2.py:137-155):
    per frame, locate a plate-shaped contour, read and correct its text,
    log a non-empty reading and derive the label drawn on the frame. The
    camera, cropping, drawing and display are outside the model; a frame
    is given by the contours its edge map yields and by the raw text the
    OCR engine reads from the crop of the chosen contour. */
module CaptureLoop {
  import opened Wrappers
  import opened Text
  import opened Ocr
  import opened SightingStore
  import opened PlateLocator

  /** What the loop learns from one captured frame. */
  datatype Frame = Frame(contours: seq<Contour>, reading: string)

  /** The label drawn on the frame, if any, and the table afterwards. */
  datatype FrameOutcome = FrameOutcome(caption: Option<string>, db: Store)

  const NewCarLabel: string := "New Car"
  const ExistingCarPrefix: string := "Existing Car - Last Entry: "

  /** How the f-string renders `last_entry_time`. */
  function ShowEntry(t: Option<Timestamp>): string {
    match t
    case Some(s) => s
    case None => "None"
  }

  /** `"New Car" if is_new_car else f"Existing Car - Last Entry: {last_entry_time}"`:
      "New Car" exactly for a new car, and otherwise the prefix followed by
      the last entry, or by `None` when there is none. */
  function Label(isNew: bool, lastEntry: Option<Timestamp>): (r: string)
    ensures r == NewCarLabel <==> isNew
    ensures !isNew && lastEntry.Some? ==> r == ExistingCarPrefix + lastEntry.value
    ensures !isNew && lastEntry.None? ==> r == ExistingCarPrefix + "None"
  {
    if isNew then NewCarLabel
    else
      var r := ExistingCarPrefix + ShowEntry(lastEntry);
      assert |r| > |NewCarLabel|;
      r
  }

  /** The gate of the loop body: a contour was found and the corrected
      reading is non-empty. */
  predicate Logs(frame: Frame) {
    FindPlateContour(frame.contours).Some? && CorrectReading(frame.reading) != []
  }

  /** The gate opens exactly when some contour of the frame is
      plate-shaped and the corrected reading is non-empty. */
  lemma GateOpensOnPlateAndText(frame: Frame)
    ensures Logs(frame) <==>
      (exists i :: 0 <= i < |frame.contours| && IsPlateShaped(frame.contours[i]))
      && |CorrectReading(frame.reading)| > 0
  {
  }

  /** One pass of the loop body at time `now`. `log_plate` runs exactly
      when the gate opens, and only then is a label drawn; the label is
      "New Car" exactly for a key the table did not hold, and otherwise
      reports that key's stored last entry. */
  function ProcessFrame(db: Store, frame: Frame, now: Timestamp): (r: FrameOutcome)
    ensures r.caption.Some? <==> Logs(frame)
    ensures !Logs(frame) ==> r.db == db
    ensures Logs(frame) ==> r.db == LogPlate(db, CorrectReading(frame.reading), now).db
    ensures r.caption == Some(NewCarLabel) <==>
      Logs(frame) && Normalize(CorrectReading(frame.reading)) !in Plates(db)
    ensures Logs(frame) && Normalize(CorrectReading(frame.reading)) in Plates(db) ==>
      exists i :: 0 <= i < |db| && db[i].plateNumber == Normalize(CorrectReading(frame.reading))
        && r.caption == Some(ExistingCarPrefix + db[i].lastEntryTime)
  {
    match FindPlateContour(frame.contours)
    case None => FrameOutcome(None, db)
    case Some(_) =>
      var text := CorrectReading(frame.reading);
      if text == [] then FrameOutcome(None, db)
      else
        var logged := LogPlate(db, text, now);
        FrameOutcome(Some(Label(logged.isNew, logged.lastEntry)), logged.db)
  }

  /** The outcome of a run: one label slot per frame and the final table. */
  datatype RunOutcome = RunOutcome(captions: seq<Option<string>>, db: Store)

  /** The capture loop over the frames the camera delivered before it
      stopped (end of stream or the operator quitting), each with the
      time it was processed. A frame gets a label exactly when it passes
      the gate. */
  function RunCapture(db: Store, frames: seq<(Frame, Timestamp)>): (r: RunOutcome)
    ensures |r.captions| == |frames|
    ensures forall i :: 0 <= i < |frames| ==> (r.captions[i].Some? <==> Logs(frames[i].0))
    decreases |frames|
  {
    if |frames| == 0 then RunOutcome([], db)
    else
      var step := ProcessFrame(db, frames[0].0, frames[0].1);
      var rest := RunCapture(step.db, frames[1..]);
      RunOutcome([step.caption] + rest.captions, rest.db)
  }

  /** The frames are processed in order against the table the earlier
      frames left: the label of frame `i` is the label `ProcessFrame` gives
      it on the table after the first `i` frames. */
  lemma RunCaptureLabels(db: Store, frames: seq<(Frame, Timestamp)>, i: nat)
    requires i < |frames|
    ensures RunCapture(db, frames).captions[i] ==
      ProcessFrame(RunCapture(db, frames[..i]).db, frames[i].0, frames[i].1).caption
  {
    RunCaptureResumes(db, frames, i);
  }

  /** A run can be resumed: frame `i` gets the first label of the run that
      restarts from the table the first `i` frames left, and that run ends
      with the same table. */
  lemma {:induction false} RunCaptureResumes(db: Store, frames: seq<(Frame, Timestamp)>, i: nat)
    requires i < |frames|
    ensures RunCapture(db, frames).captions[i] ==
      RunCapture(RunCapture(db, frames[..i]).db, frames[i..]).captions[0]
    ensures RunCapture(db, frames).db == RunCapture(RunCapture(db, frames[..i]).db, frames[i..]).db
    decreases i
  {
    if i == 0 {
      assert frames[..0] == [] && frames[0..] == frames;
    } else {
      var next := ProcessFrame(db, frames[0].0, frames[0].1).db;
      var rest, prefix := frames[1..], frames[..i];
      RunCaptureResumes(next, rest, i - 1);
      assert RunCapture(db, prefix).db == RunCapture(next, rest[..i - 1]).db by {
        assert prefix[0] == frames[0] && prefix[1..] == rest[..i - 1];
      }
      assert rest[i - 1..] == frames[i..];
    }
  }

  /** A plate read twice in one run is labelled "Existing Car" the second
      time, with the time of the first sighting. */
  lemma SecondSightingInRun(db: Store, first: Frame, second: Frame, t1: Timestamp, t2: Timestamp)
    requires Logs(first) && Logs(second)
    requires Normalize(CorrectReading(first.reading)) == Normalize(CorrectReading(second.reading))
    ensures RunCapture(db, [(first, t1), (second, t2)]).captions[1] == Some(ExistingCarPrefix + t1)
  {
    RunCaptureSecond(db, [(first, t1), (second, t2)]);
    SecondSightingLabel(db, first, second, t1, t2);
  }

  lemma RunCaptureSecond(db: Store, frames: seq<(Frame, Timestamp)>)
    requires |frames| == 2
    ensures RunCapture(db, frames).captions[1] ==
      ProcessFrame(ProcessFrame(db, frames[0].0, frames[0].1).db, frames[1].0, frames[1].1).caption
  {
    var next := ProcessFrame(db, frames[0].0, frames[0].1).db;
    var rest := frames[1..];
    assert RunCapture(db, frames).captions[1] == RunCapture(next, rest).captions[0];
    assert rest[0] == frames[1];
  }

  /** Two frames with the same key, one after the other: the second is
      labelled "Existing Car" with the time of the first. */
  lemma SecondSightingLabel(db: Store, first: Frame, second: Frame, t1: Timestamp, t2: Timestamp)
    requires Logs(first) && Logs(second)
    requires Normalize(CorrectReading(first.reading)) == Normalize(CorrectReading(second.reading))
    ensures ProcessFrame(ProcessFrame(db, first, t1).db, second, t2).caption == Some(ExistingCarPrefix + t1)
  {
    var after := ProcessFrame(db, first, t1).db;
    var text1, text2 := CorrectReading(first.reading), CorrectReading(second.reading);
    LogPlateTwice(db, text1, text2, t1, t2);
    ProcessFrameLabel(after, second, t2);
  }

  /** A frame that passes the gate is labelled with `Label` of what
      `log_plate` returns. */
  lemma ProcessFrameLabel(db: Store, frame: Frame, now: Timestamp)
    requires Logs(frame)
    ensures var logged := LogPlate(db, CorrectReading(frame.reading), now);
      ProcessFrame(db, frame, now).caption == Some(Label(logged.isNew, logged.lastEntry))
  {
  }

  /** Over a whole run plates are never forgotten and the `UNIQUE`
      constraint holds throughout. */
  lemma {:induction false} RunCaptureKeepsPlates(db: Store, frames: seq<(Frame, Timestamp)>)
    ensures Plates(db) <= Plates(RunCapture(db, frames).db)
    ensures UniquePlates(db) ==> UniquePlates(RunCapture(db, frames).db)
    decreases |frames|
  {
    if |frames| > 0 {
      var next := ProcessFrame(db, frames[0].0, frames[0].1).db;
      ProcessFrameKeepsPlates(db, frames[0].0, frames[0].1);
      RunCaptureKeepsPlates(next, frames[1..]);
    }
  }

  /** A run in which no frame passes the gate leaves the table as it was. */
  lemma {:induction false} RunCaptureIdleKeepsTable(db: Store, frames: seq<(Frame, Timestamp)>)
    requires forall i :: 0 <= i < |frames| ==> !Logs(frames[i].0)
    ensures RunCapture(db, frames).db == db
    decreases |frames|
  {
    if |frames| > 0 {
      assert !Logs(frames[0].0);
      var rest := frames[1..];
      assert forall i :: 0 <= i < |rest| ==> rest[i] == frames[i + 1];
      RunCaptureIdleKeepsTable(db, rest);
    }
  }

  /** One pass of the loop body never loses a plate and keeps the `UNIQUE`
      constraint. */
  lemma ProcessFrameKeepsPlates(db: Store, frame: Frame, now: Timestamp)
    ensures Plates(db) <= Plates(ProcessFrame(db, frame, now).db)
    ensures UniquePlates(db) ==> UniquePlates(ProcessFrame(db, frame, now).db)
  {
    if Logs(frame) {
      var text := CorrectReading(frame.reading);
      LogPlateKeepsPlates(db, text, now);
      if UniquePlates(db) {
        LogPlateKeepsUnique(db, text, now);
      }
    }
  }

  /** The key a logged frame is stored under is the corrected reading
      itself, upper-cased: non-empty and free of spaces. */
  lemma LoggedKeyIsUpperCasedReading(frame: Frame)
    requires Logs(frame)
    ensures var text := CorrectReading(frame.reading);
      Normalize(text) == Upper(text) && |Normalize(text)| > 0 && ' ' !in Normalize(text)
  {
    var text := CorrectReading(frame.reading);
    assert ' ' !in text;
  }

  /** The correction runs before `log_plate` upper-cases, so a lower-case
      `o` survives it and is stored as the letter `O` that the correction
      exists to remove. */
  lemma LowerCaseConfusableReachesKey(frame: Frame)
    requires frame.reading == "o" && FindPlateContour(frame.contours).Some?
    ensures Logs(frame)
    ensures Normalize(CorrectReading(frame.reading)) == "O"
  {
    var raw := frame.reading;
    assert MapConfusion(raw) == raw;
    ReplaceChainIsPerCharMap(raw);
    CleanTextIsFixedPoint(raw);
    CorrectReadingStages(raw, raw, raw, raw);
    assert Upper(raw) == "O" by {
      assert UpperChar('o') == 'O';
    }
  }

  /** The correction rewrites every `B` to `8` before `log_plate`
      upper-cases, so a key holds `B` only when the engine read a
      lower-case `b`. A reading of the seeded plate `22BH6517A` with an
      upper-case `B` is therefore never logged under the seeded key. */
  lemma UpperCaseBNeverReachesKey(frame: Frame)
    requires 'b' !in frame.reading
    ensures 'B' !in Normalize(CorrectReading(frame.reading))
    ensures Normalize(CorrectReading(frame.reading)) != PredefinedVehicles[1].plateNumber
  {
    var text := CorrectReading(frame.reading);
    assert 'B' !in Normalize(text) by {
      CorrectReadingKeepsOutB(frame.reading);
      NormalizeKeepsOutB(text);
    }
    SeedPlateHoldsB();
  }
}
