/**
 * `string.Template` as the formatters use it: a fixed text with `$name`
 * placeholders, filled once by `substitute(**kwargs)`.
 */
module Templates {
  import opened Wrappers

  /** One piece of a template text: literal text, or a `$name` placeholder. */
  datatype Piece = Text(text: string) | Placeholder(name: string)

  /** A template text, split into its pieces in reading order. */
  type Template = seq<Piece>

  /** The names a template asks for. */
  function Placeholders(t: Template): set<string>
    decreases |t|
  {
    if t == [] then {}
    else Placeholders(t[..|t| - 1]) + (if t[|t| - 1].Placeholder? then {t[|t| - 1].name} else {})
  }

  /** What one piece becomes: the literal itself, or the keyword's value (KeyError if it is missing). */
  function FillPiece(p: Piece, kwargs: map<string, string>): Result<string, string> {
    match p
    case Text(s) => Ok(s)
    case Placeholder(n) => if n in kwargs then Ok(kwargs[n]) else Err(n)
  }

  /**
   * `Template.substitute(**kwargs)`: one left-to-right pass that copies literal
   * text and replaces each placeholder by its keyword's value. A value is copied
   * as it is and never scanned again, so a `$` inside it stays a `$`. The first
   * placeholder without a keyword raises `KeyError(name)`.
   */
  function Substitute(t: Template, kwargs: map<string, string>): (r: Result<string, string>)
    ensures r.Ok? <==> Placeholders(t) <= kwargs.Keys
    ensures r.Err? ==> r.error in Placeholders(t) && r.error !in kwargs
    ensures r.Err? ==> NamesFirstMissing(t, kwargs, r.error)
    decreases |t|
  {
    if t == [] then Ok("")
    else
      var n := |t| - 1;
      match Substitute(t[..n], kwargs)
      case Err(name) =>
        var i :| FirstMissing(t[..n], kwargs, i) && t[..n][i] == Placeholder(name);
        assert t[..n][..i] == t[..i];
        assert FirstMissing(t, kwargs, i);
        Err(name)
      case Ok(done) =>
        match FillPiece(t[n], kwargs)
        case Err(name) =>
          assert t[..n] == t[..n][..n];
          assert FirstMissing(t, kwargs, n);
          Err(name)
        case Ok(s) => Ok(done + s)
  }

  /** Piece `i` is a placeholder without a keyword, and every placeholder before it has one. */
  predicate FirstMissing(t: Template, kwargs: map<string, string>, i: int) {
    && 0 <= i < |t|
    && t[i].Placeholder? && t[i].name !in kwargs
    && Placeholders(t[..i]) <= kwargs.Keys
  }

  /** `name` is the placeholder at the first position that has no keyword. */
  ghost predicate NamesFirstMissing(t: Template, kwargs: map<string, string>, name: string) {
    exists i :: FirstMissing(t, kwargs, i) && t[i] == Placeholder(name)
  }

  lemma {:induction false} PlaceholdersAppend(t1: Template, t2: Template)
    ensures Placeholders(t1 + t2) == Placeholders(t1) + Placeholders(t2)
    decreases |t2|
  {
    if t2 == [] {
      assert t1 + t2 == t1;
    } else {
      assert (t1 + t2)[..|t1 + t2| - 1] == t1 + t2[..|t2| - 1];
      PlaceholdersAppend(t1, t2[..|t2| - 1]);
    }
  }

  /** Substituting into two texts written one after the other is substituting into each. */
  lemma {:induction false} SubstituteAppend(t1: Template, t2: Template, kwargs: map<string, string>)
    requires Placeholders(t1 + t2) <= kwargs.Keys
    ensures Placeholders(t1) <= kwargs.Keys && Placeholders(t2) <= kwargs.Keys
    ensures Substitute(t1 + t2, kwargs).value == Substitute(t1, kwargs).value + Substitute(t2, kwargs).value
    decreases |t2|
  {
    PlaceholdersAppend(t1, t2);
    if t2 == [] {
      assert t1 + t2 == t1;
    } else {
      var front, last := t2[..|t2| - 1], t2[|t2| - 1];
      assert (t1 + t2)[..|t1 + t2| - 1] == t1 + front;
      assert (t1 + t2)[|t1 + t2| - 1] == last;
      PlaceholdersAppend(t1, front);
      PlaceholdersAppend(front, [last]);
      assert front + [last] == t2;
      SubstituteAppend(t1, front, kwargs);
      var a, b, c := Substitute(t1, kwargs).value, Substitute(front, kwargs).value, FillPiece(last, kwargs).value;
      assert Substitute(t1 + t2, kwargs).value == (a + b) + c;
      assert Substitute(t2, kwargs).value == b + c;
      assert (a + b) + c == a + (b + c);
    }
  }

  /**
   * A placeholder's value lands in the output verbatim, between what the text
   * before it and the text after it produce, whatever characters it holds.
   */
  lemma ValueCopiedVerbatim(before: Template, name: string, after: Template, kwargs: map<string, string>)
    requires Placeholders(before + [Placeholder(name)] + after) <= kwargs.Keys
    ensures Placeholders(before) <= kwargs.Keys && name in kwargs && Placeholders(after) <= kwargs.Keys
    ensures Substitute(before + [Placeholder(name)] + after, kwargs).value
      == Substitute(before, kwargs).value + kwargs[name] + Substitute(after, kwargs).value
  {
    SubstituteAppend(before + [Placeholder(name)], after, kwargs);
    SubstituteAppend(before, [Placeholder(name)], kwargs);
    assert Placeholders([Placeholder(name)]) == {name};
  }
}
