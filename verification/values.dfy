/** Loosely typed payload values and the string-to-number coercion applied to them. */
module Values {
  import opened Wrappers
  import opened Errors

  /** A primitive JSON value of the payload: text, an integer or a floating-point number. */
  datatype Value = Str(s: string) | Int(i: int) | Flt(x: real) {

    /** True for the values the model can consume. */
    predicate IsNumber() {
      !Str?
    }
  }

  /** The number parsers, which the model takes as given partial functions:
      `None` is the `ValueError` that Python's `int(s)` or `float(s)` raises. */
  datatype Parsers = Parsers(parseInt: string -> Option<int>, parseFloat: string -> Option<real>)

  /** `_normalise_value`: a string containing '.' is parsed as a float, any other string as an
      integer, and a value that is not a string is returned unchanged. */
  function NormaliseValue(p: Parsers, v: Value): (r: Result<Value, Error>)
    ensures r.Success? ==> r.value.IsNumber()
    ensures !v.Str? ==> r == Success(v)
    ensures v.Str? && '.' in v.s ==>
              && (r.Success? <==> p.parseFloat(v.s).Some?)
              && (r.Success? ==> r.value == Flt(p.parseFloat(v.s).value))
              && (r.Failure? ==> r.error == Unparsable(FloatKind, v.s))
    ensures v.Str? && '.' !in v.s ==>
              && (r.Success? <==> p.parseInt(v.s).Some?)
              && (r.Success? ==> r.value == Int(p.parseInt(v.s).value))
              && (r.Failure? ==> r.error == Unparsable(IntKind, v.s))
  {
    if !v.Str? then Success(v)
    else if '.' in v.s then
      match p.parseFloat(v.s)
      case Some(x) => Success(Flt(x))
      case None => Failure(Unparsable(FloatKind, v.s))
    else
      match p.parseInt(v.s)
      case Some(n) => Success(Int(n))
      case None => Failure(Unparsable(IntKind, v.s))
  }

  /** Normalising an already normalised value changes nothing. */
  lemma NormaliseIdempotent(p: Parsers, v: Value)
    requires NormaliseValue(p, v).Success?
    ensures NormaliseValue(p, NormaliseValue(p, v).value) == NormaliseValue(p, v)
  {
  }
}
