/** The string validators both request schemas share: whitespace
    cleaning, length bounds, and the contact and pincode patterns. */
module Validators {
  import opened Common
  import opened Text

  /** The name/notes cleaner: absent stays absent; otherwise the value is
      whitespace-collapsed and must not end up empty. */
  function CleanText(v: Option<string>): (r: Result<Option<string>>)
    ensures v.None? ==> r == Ok(None)
    ensures v.Some? ==> (r.Err? <==> AllSpace(v.value))
    ensures v.Some? && r.Ok? ==> r.value == Some(Collapse(v.value)) && r.value.value != []
    ensures r.Err? ==> r.error == ValidationError("Field cannot be empty or whitespace")
  {
    match v
    case None => Ok(None)
    case Some(s) =>
      var c := Collapse(s);
      CollapseEmpty(s);
      if c == [] then Err(ValidationError("Field cannot be empty or whitespace"))
      else Ok(Some(c))
  }

  /** Cleaning a cleaned value returns it unchanged. */
  lemma CleanTextIdempotent(v: Option<string>)
    requires CleanText(v).Ok?
    ensures CleanText(CleanText(v).value) == CleanText(v)
  {
    if v.Some? {
      CollapseIdempotent(v.value);
      CollapseEmpty(Collapse(v.value));
    }
  }

  lemma {:induction false} JoinWordsShorter(s: string)
    ensures |Join(Words(s))| <= |s|
    ensures s != [] && IsSpace(s[0]) && Words(s) != [] ==> |Join(Words(s))| < |s|
    decreases |s|
  {
    if s == [] {
    } else if IsSpace(s[0]) {
      JoinWordsShorter(s[1..]);
    } else {
      var n := WordLength(s);
      var rest := s[n..];
      JoinWordsShorter(rest);
      var ws := Words(rest);
      if ws != [] {
        assert ([s[..n]] + ws)[1..] == ws;
      }
    }
  }

  /** Collapsing never lengthens a value. */
  lemma CollapseShorter(s: string)
    ensures |Collapse(s)| <= |s|
  {
    JoinWordsShorter(Strip(s));
  }

  /** A pydantic length constraint, counted in characters. */
  function CheckLength(field: string, v: string, lo: nat, hi: nat): (r: Result<string>)
    ensures r.Ok? <==> lo <= |v| <= hi
    ensures r.Ok? ==> r.value == v
    ensures r.Err? ==> r.error == ValidationError(field)
  {
    if lo <= |v| <= hi then Ok(v) else Err(ValidationError(field))
  }

  /** re.match("^[class]{lo,hi}$", s): the whole string is drawn from the
      class, with a length in range, except that Python's "$" also matches
      just before a final newline. */
  predicate FullMatch(s: string, cls: char -> bool, lo: nat, hi: nat)
  {
    (lo <= |s| <= hi && forall i :: 0 <= i < |s| ==> cls(s[i]))
    || (|s| >= 1 && s[|s| - 1] == '\n' && lo <= |s| - 1 <= hi
        && forall i :: 0 <= i < |s| - 1 ==> cls(s[i]))
  }

  /** The class [0-9+\-\s]. */
  predicate ContactChar(c: char)
  {
    '0' <= c <= '9' || c == '+' || c == '-' || IsSpace(c)
  }

  /** The class [0-9A-Za-z\-]. */
  predicate PincodeChar(c: char)
  {
    '0' <= c <= '9' || 'A' <= c <= 'Z' || 'a' <= c <= 'z' || c == '-'
  }

  predicate IsContact(s: string)
  {
    7 <= |s| <= 20 && forall i :: 0 <= i < |s| ==> ContactChar(s[i])
  }

  predicate IsPincode(s: string)
  {
    4 <= |s| <= 10 && forall i :: 0 <= i < |s| ==> PincodeChar(s[i])
  }

  /** Without trailing whitespace, the "$" rule adds nothing. */
  lemma FullMatchTrimmed(s: string, cls: char -> bool, lo: nat, hi: nat)
    ensures (s == [] || !IsSpace(s[|s| - 1])) ==>
              (FullMatch(s, cls, lo, hi) <==> (lo <= |s| <= hi && forall i :: 0 <= i < |s| ==> cls(s[i])))
  {
  }

  /** On a value without trailing whitespace, the contact pattern matches
      exactly the contacts. */
  lemma ContactMatch(s: string)
    requires s == [] || !IsSpace(s[|s| - 1])
    ensures FullMatch(s, ContactChar, 7, 20) <==> IsContact(s)
  {
    FullMatchTrimmed(s, ContactChar, 7, 20);
  }

  /** validate_contact: the stripped value must be 7 to 20 digits, '+',
      '-' or whitespace. */
  function ValidateContact(v: string): (r: Result<string>)
    ensures r.Ok? <==> IsContact(Strip(v))
    ensures r.Ok? ==> r.value == Strip(v)
    ensures r.Err? ==> r.error == ValidationError("Invalid contact number format")
  {
    var s := Strip(v);
    ContactMatch(s);
    if FullMatch(s, ContactChar, 7, 20) then Ok(s)
    else Err(ValidationError("Invalid contact number format"))
  }

  /** A contact validate_contact returned passes it again unchanged. */
  lemma ValidateContactStable(v: string)
    requires IsContact(Strip(v))
    ensures ValidateContact(Strip(v)) == Ok(Strip(v))
  {
    StripIdempotent(v);
  }

  /** validate_pincode: the value itself, unstripped, against the pattern. */
  function ValidatePincode(v: string): (r: Result<string>)
    ensures r.Ok? <==> FullMatch(v, PincodeChar, 4, 10)
    ensures (v == [] || !IsSpace(v[|v| - 1])) ==> (r.Ok? <==> IsPincode(v))
    ensures r.Ok? ==> r.value == v
    ensures r.Err? ==> r.error == ValidationError("Invalid pincode format")
  {
    FullMatchTrimmed(v, PincodeChar, 4, 10);
    if FullMatch(v, PincodeChar, 4, 10) then Ok(v)
    else Err(ValidationError("Invalid pincode format"))
  }

  /** The pattern's "$" lets a pincode through with a trailing newline. */
  lemma PincodeTrailingNewline()
    ensures ValidatePincode("1234\n") == Ok("1234\n")
  {
    assert FullMatch("1234\n", PincodeChar, 4, 10);
  }

  /** A third-party format check (EmailStr, HttpUrl), a parameter of the
      model: the normalised value, or None when the value is refused. */
  type FormatCheck = string -> Option<string>

  function CheckFormat(field: string, check: FormatCheck, v: string): (r: Result<string>)
    ensures r.Ok? <==> check(v).Some?
    ensures r.Ok? ==> r.value == check(v).value
    ensures r.Err? ==> r.error == ValidationError(field)
  {
    var e := check(v);
    if e.None? then Err(ValidationError(field)) else Ok(e.value)
  }

  /** An optional value through a format check; None passes. */
  function CheckOptionalFormat(field: string, check: FormatCheck, v: Option<string>): (r: Result<Option<string>>)
    ensures r.Ok? <==> v.None? || check(v.value).Some?
    ensures r.Ok? ==> r.value == (if v.None? then None else check(v.value))
    ensures r.Err? ==> r.error == ValidationError(field)
  {
    if v.None? then Ok(None)
    else
      var e :- CheckFormat(field, check, v.value);
      Ok(Some(e))
  }

  /** The value an optional format-checked field holds once accepted. */
  function Checked(check: FormatCheck, v: Option<string>): Option<string>
  {
    if v.None? then None else check(v.value)
  }

  /** clean_search_fields, shared by both search schemas: strip a non-empty value, pass anything else. */
  function StripGiven(v: Option<string>): (r: Option<string>)
    ensures v.None? ==> r == None
    ensures v.Some? && v.value == [] ==> r == Some([])
    ensures v.Some? && v.value != [] ==> r == Some(Strip(v.value))
  {
    if Given(v) then Some(Strip(v.value)) else v
  }
}
