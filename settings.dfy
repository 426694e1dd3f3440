/** The Run settings of both main windows: the tolerance, the iteration
    budget and, in the newer program, the optional parameters of the
    Bayesian optimizer. Each is read from a text field when Run is pressed. */
module RunSettings {
  import opened Common

  const DefaultTol: real := 0.0001
  const DefaultMaxIts: int := 30

  /** The tolerance after reading its field, or `None` when the field does
      not parse and the Run event ends there. */
  function NextTol(tol: real, field: Field<real>): (r: Option<real>)
  {
    match field
    case Blank => Some(DefaultTol)
    case Parsed(v) => if v > 0.0 then Some(v) else Some(tol)
    case Unparseable => None
  }

  /** The iteration budget after reading its field, read the same way. */
  function NextMaxIts(maxIts: int, field: Field<int>): (r: Option<int>)
  {
    match field
    case Blank => Some(DefaultMaxIts)
    case Parsed(v) => if v > 0 then Some(v) else Some(maxIts)
    case Unparseable => None
  }

  /** A blank field resets to the default, a positive value is taken, any
      other number keeps the old value, and text that does not parse stops
      the Run. A positive tolerance stays positive. */
  lemma TolRule(tol: real, field: Field<real>)
    ensures NextTol(tol, field).None? <==> field.Unparseable?
    ensures field.Blank? ==> NextTol(tol, field) == Some(DefaultTol)
    ensures field.Parsed? ==> NextTol(tol, field) == Some(if field.value > 0.0 then field.value else tol)
    ensures tol > 0.0 && NextTol(tol, field).Some? ==> NextTol(tol, field).value > 0.0
  {
  }

  /** The same for the iteration budget. */
  lemma MaxItsRule(maxIts: int, field: Field<int>)
    ensures NextMaxIts(maxIts, field).None? <==> field.Unparseable?
    ensures field.Blank? ==> NextMaxIts(maxIts, field) == Some(DefaultMaxIts)
    ensures field.Parsed? ==> NextMaxIts(maxIts, field) == Some(if field.value > 0 then field.value else maxIts)
    ensures maxIts > 0 && NextMaxIts(maxIts, field).Some? ==> NextMaxIts(maxIts, field).value > 0
  {
  }

  datatype Acquisition = Ucb | Ei | Poi

  /** The three labels of the acquisition list. */
  function AcquisitionFor(choice: string): Option<Acquisition>
  {
    if choice == "Upper Confidence Bounds" then Some(Ucb)
    else if choice == "Expected Improvement" then Some(Ei)
    else if choice == "Probability of Improvement" then Some(Poi)
    else None
  }

  /** Each label selects its own acquisition function, and any other text
      none. */
  lemma AcquisitionLabels(choice: string)
    ensures AcquisitionFor(choice) == Some(Ucb) <==> choice == "Upper Confidence Bounds"
    ensures AcquisitionFor(choice) == Some(Ei) <==> choice == "Expected Improvement"
    ensures AcquisitionFor(choice) == Some(Poi) <==> choice == "Probability of Improvement"
  {
  }

  /** `self.extraParams`: a key is present only when its field held a value
      in range. */
  datatype ExtraParams = ExtraParams(
    initPoints: Option<int>,
    eta: Option<real>,
    kappa: Option<real>,
    kappaDecay: Option<real>,
    kappaDecayDelay: Option<int>,
    acq: Option<Acquisition>)

  predicate InRange(p: ExtraParams) {
    (p.initPoints.Some? ==> p.initPoints.value > 0)
    && (p.eta.Some? ==> 0.0 < p.eta.value <= 1.0)
    && (p.kappa.Some? ==> p.kappa.value > 0.0)
    && (p.kappaDecay.Some? ==> 0.0 < p.kappaDecay.value <= 1.0)
    && (p.kappaDecayDelay.Some? ==> p.kappaDecayDelay.value >= 0)
  }

  /** The six optional fields of the Bayesian column. */
  datatype ExtraFields = ExtraFields(
    startIts: Field<int>,
    eta: Field<real>,
    kappa: Field<real>,
    kappaDecay: Field<real>,
    kappaDecayDelay: Field<int>,
    acq: string)

  /** A count field taken when it is above `least - 1`. */
  function AtLeastInt(f: Field<int>, least: int): (r: Option<int>)
    ensures r.Some? <==> f.Parsed? && f.value >= least
    ensures r.Some? ==> r.value == f.value
  {
    if f.Parsed? && f.value >= least then Some(f.value) else None
  }

  /** A number field taken when it is positive, and at most 1 if `unit`. */
  function PositiveReal(f: Field<real>, unit: bool): (r: Option<real>)
    ensures r.Some? <==> f.Parsed? && f.value > 0.0 && (unit ==> f.value <= 1.0)
    ensures r.Some? ==> r.value == f.value
  {
    if f.Parsed? && f.value > 0.0 && (unit ==> f.value <= 1.0) then Some(f.value) else None
  }

  /** The extra parameters read from scratch on each Run. */
  function ReadExtra(fields: ExtraFields): (p: ExtraParams)
    ensures InRange(p)
  {
    ExtraParams(
      AtLeastInt(fields.startIts, 1),
      PositiveReal(fields.eta, true),
      PositiveReal(fields.kappa, false),
      PositiveReal(fields.kappaDecay, true),
      AtLeastInt(fields.kappaDecayDelay, 0),
      AcquisitionFor(fields.acq))
  }

  /** A value in range is always taken, and nothing is kept from an earlier
      Run. */
  lemma ReadExtraTakesValid(fields: ExtraFields)
    ensures fields.startIts.Parsed? && fields.startIts.value > 0 ==> ReadExtra(fields).initPoints == Some(fields.startIts.value)
    ensures fields.eta.Parsed? && 0.0 < fields.eta.value <= 1.0 ==> ReadExtra(fields).eta == Some(fields.eta.value)
    ensures fields.kappa.Parsed? && fields.kappa.value > 0.0 ==> ReadExtra(fields).kappa == Some(fields.kappa.value)
    ensures fields.kappaDecay.Parsed? && 0.0 < fields.kappaDecay.value <= 1.0 ==> ReadExtra(fields).kappaDecay == Some(fields.kappaDecay.value)
    ensures fields.kappaDecayDelay.Parsed? && fields.kappaDecayDelay.value >= 0 ==> ReadExtra(fields).kappaDecayDelay == Some(fields.kappaDecayDelay.value)
    ensures !fields.startIts.Parsed? ==> ReadExtra(fields).initPoints.None?
  {
  }

  /** `self.extraParams` is the empty dictionary: no keyword is passed on
      to the optimiser. */
  predicate NoKeywords(p: ExtraParams) {
    p.initPoints.None? && p.eta.None? && p.kappa.None? && p.kappaDecay.None?
    && p.kappaDecayDelay.None? && p.acq.None?
  }

  /** The dictionary is empty exactly when no field holds a value in range
      and the acquisition list shows none of its three labels. */
  lemma NoKeywordsRule(fields: ExtraFields)
    ensures NoKeywords(ReadExtra(fields)) <==>
      && !(fields.startIts.Parsed? && fields.startIts.value > 0)
      && !(fields.eta.Parsed? && 0.0 < fields.eta.value <= 1.0)
      && !(fields.kappa.Parsed? && fields.kappa.value > 0.0)
      && !(fields.kappaDecay.Parsed? && 0.0 < fields.kappaDecay.value <= 1.0)
      && !(fields.kappaDecayDelay.Parsed? && fields.kappaDecayDelay.value >= 0)
      && fields.acq != "Upper Confidence Bounds"
      && fields.acq != "Expected Improvement"
      && fields.acq != "Probability of Improvement"
  {
    AcquisitionLabels(fields.acq);
  }

  /** With the acquisition list at its default label the dictionary always
      holds `'acq'`. */
  lemma DefaultChoiceKeyword(fields: ExtraFields)
    requires fields.acq == "Upper Confidence Bounds"
    ensures ReadExtra(fields).acq == Some(Ucb)
    ensures !NoKeywords(ReadExtra(fields))
  {
  }

  /** The reading of the extra parameters on Run: `self.extraParams = {}`,
      then one key per field holding a value in range. */
  method ReadExtraParams(fields: ExtraFields) returns (p: ExtraParams)
    ensures p == ReadExtra(fields)
  {
    var initPoints := if fields.startIts.Parsed? && fields.startIts.value > 0 then Some(fields.startIts.value) else None;
    var eta := if fields.eta.Parsed? && 0.0 < fields.eta.value <= 1.0 then Some(fields.eta.value) else None;
    var kappa := if fields.kappa.Parsed? && fields.kappa.value > 0.0 then Some(fields.kappa.value) else None;
    var kappaDecay := if fields.kappaDecay.Parsed? && 0.0 < fields.kappaDecay.value <= 1.0 then Some(fields.kappaDecay.value) else None;
    var kappaDecayDelay := if fields.kappaDecayDelay.Parsed? && fields.kappaDecayDelay.value >= 0 then Some(fields.kappaDecayDelay.value) else None;
    var acq := ReadAcquisition(fields.acq);
    p := ExtraParams(initPoints, eta, kappa, kappaDecay, kappaDecayDelay, acq);
  }

  /** The acquisition list: a key only for one of its three labels. */
  method ReadAcquisition(choice: string) returns (acq: Option<Acquisition>)
    ensures acq == AcquisitionFor(choice)
  {
    acq := None;
    if choice == "Upper Confidence Bounds" {
      acq := Some(Ucb);
    } else if choice == "Expected Improvement" {
      acq := Some(Ei);
    } else if choice == "Probability of Improvement" {
      acq := Some(Poi);
    }
  }

  datatype Method = LevenbergMarquardtBroyden | Bayesian

  /** The settings of the newer main window. */
  class Settings {
    var tol: real
    var maxIts: int
    var extraParams: ExtraParams
    var optimizer: Method

    ghost predicate Valid()
      reads this
    {
      tol > 0.0 && maxIts > 0 && InRange(extraParams)
    }

    constructor()
      ensures Valid() && tol == DefaultTol && maxIts == DefaultMaxIts && optimizer == LevenbergMarquardtBroyden
      ensures extraParams == ExtraParams(None, None, None, None, None, None)
    {
      tol, maxIts, optimizer := DefaultTol, DefaultMaxIts, LevenbergMarquardtBroyden;
      extraParams := ExtraParams(None, None, None, None, None, None);
    }

    /** The Run event up to `self.run()`: tolerance, then the iteration field
        of the chosen method, then the extra parameters. `run` is False when
        a field stopped the event; what was read before it stays read. */
    method ReadRun(tolField: Field<real>, maxItsField: Field<int>, totalItsField: Field<int>, fields: ExtraFields)
      returns (run: bool)
      requires Valid()
      modifies this`tol, this`maxIts, this`extraParams
      ensures Valid()
      ensures var t := NextTol(old(tol), tolField);
        var m := NextMaxIts(old(maxIts), if optimizer.LevenbergMarquardtBroyden? then maxItsField else totalItsField);
        && (t.None? ==> !run && tol == old(tol) && maxIts == old(maxIts) && extraParams == old(extraParams))
        && (t.Some? && m.None? ==> !run && tol == t.value && maxIts == old(maxIts) && extraParams == old(extraParams))
        && (t.Some? && m.Some? ==> run && tol == t.value && maxIts == m.value && extraParams == ReadExtra(fields))
    {
      TolRule(tol, tolField);
      match tolField {
        case Blank => tol := DefaultTol;
        case Parsed(v) =>
          if v > 0.0 {
            tol := v;
          }
        case Unparseable => return false;
      }
      var itsField := if optimizer.LevenbergMarquardtBroyden? then maxItsField else totalItsField;
      MaxItsRule(maxIts, itsField);
      match itsField {
        case Blank => maxIts := DefaultMaxIts;
        case Parsed(n) =>
          if n > 0 {
            maxIts := n;
          }
        case Unparseable => return false;
      }
      extraParams := ReadExtraParams(fields);
      return true;
    }
  }

  /** The settings of the older main window: tolerance and iterations only. */
  class LegacySettings {
    var tol: real
    var maxIts: int

    ghost predicate Valid()
      reads this
    {
      tol > 0.0 && maxIts > 0
    }

    constructor()
      ensures Valid() && tol == DefaultTol && maxIts == DefaultMaxIts
    {
      tol, maxIts := DefaultTol, DefaultMaxIts;
    }

    /** The Run event up to `self.run()`. */
    method ReadRun(tolField: Field<real>, maxItsField: Field<int>) returns (run: bool)
      requires Valid()
      modifies this`tol, this`maxIts
      ensures Valid()
      ensures var t := NextTol(old(tol), tolField);
        var m := NextMaxIts(old(maxIts), maxItsField);
        && (t.None? ==> !run && tol == old(tol) && maxIts == old(maxIts))
        && (t.Some? && m.None? ==> !run && tol == t.value && maxIts == old(maxIts))
        && (t.Some? && m.Some? ==> run && tol == t.value && maxIts == m.value)
    {
      TolRule(tol, tolField);
      match tolField {
        case Blank => tol := DefaultTol;
        case Parsed(v) =>
          if v > 0.0 {
            tol := v;
          }
        case Unparseable => return false;
      }
      MaxItsRule(maxIts, maxItsField);
      match maxItsField {
        case Blank => maxIts := DefaultMaxIts;
        case Parsed(n) =>
          if n > 0 {
            maxIts := n;
          }
        case Unparseable => return false;
      }
      return true;
    }
  }
}
