/** The manifest validator's own copy of the cron grammar. */
module CronValidator {
  import opened Prelude
  import opened Whitespace
  import opened CronFields

  /** `isValidCronField`: unlike the parser it looks at the empty field first. */
  method IsValidCronField(field: string, min: int, max: int) returns (ok: bool)
    ensures ok <==> FieldValues(field, min, max).Some?
  {
    hide ReadPiece;
    if |field| == 0 {
      EmptyField(min, max);
      return false;
    }
    var pieces := Split(field, ',');
    var i := 0;
    while i < |pieces|
      invariant 0 <= i <= |pieces| && PiecesOk(pieces[..i], min, max)
    {
      match ReadPiece(pieces[i]) {
        case Star =>
        case Every(step) =>
          if step < 1 || step > max {
            return false;
          }
        case Range(lo, hi) =>
          if lo < min || hi > max || lo > hi {
            return false;
          }
        case One(v) =>
          if v < min || v > max {
            return false;
          }
        case Unreadable =>
          return false;
      }
      i := i + 1;
    }
    assert pieces[..i] == pieces;
    ok := true;
  }

  /** The field without text is one piece without text, and no pattern matches it. */
  lemma EmptyField(min: int, max: int)
    ensures FieldValues("", min, max).None?
  {
    var pieces := Split("", ',');
    assert pieces == [""] && ReadPiece(pieces[0]) == Unreadable;
  }

  /** `isValidCronExpression`: it accepts exactly what the scheduler's parser accepts. */
  method IsValidCronExpression(expr: string) returns (ok: bool)
    ensures ok <==> ParseSchedule(expr).Some?
  {
    hide FieldValues, SplitSpaces, Trim;
    var parts := SplitSpaces(Trim(expr));
    if |parts| != 5 {
      return false;
    }
    var i := 0;
    while i < 5
      invariant 0 <= i <= 5
      invariant forall j :: 0 <= j < i ==> FieldValues(parts[j], LIMITS[j].0, LIMITS[j].1).Some?
    {
      var valid := IsValidCronField(parts[i], LIMITS[i].0, LIMITS[i].1);
      if !valid {
        return false;
      }
      i := i + 1;
    }
    ok := true;
  }

  /** Both copies of the grammar on one text. */
  method GrammarsAgree(expr: string) returns (valid: bool, parsed: Result<Schedule>)
    ensures valid <==> parsed.Ok?
  {
    valid := IsValidCronExpression(expr);
    parsed := ParseCronFieldList(expr);
  }
}
