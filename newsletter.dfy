/** The newsletter sign-up form: two text fields, a validator that reports the
    first problem it finds, and the flag that switches to the thank-you view. */
module Newsletter {
  import opened Wrappers

  /** The characters the browser runtime's string `trim` removes: white space
      and line terminators. */
  predicate IsWhitespace(c: char)
  {
    c == ' ' || c == '\t' || c == '\n' || c == '\U{B}' || c == '\U{C}' || c == '\r'
    || c == '\U{A0}' || c == '\U{1680}' || ('\U{2000}' <= c <= '\U{200A}')
    || c == '\U{2028}' || c == '\U{2029}' || c == '\U{202F}' || c == '\U{205F}' || c == '\U{3000}'
    || c == '\U{FEFF}'
  }

  function TrimStart(s: string): (t: string)
    ensures |t| <= |s| && t == s[|s| - |t|..]
    ensures |t| > 0 ==> !IsWhitespace(t[0])
    ensures forall i :: 0 <= i < |s| - |t| ==> IsWhitespace(s[i])
  {
    if |s| > 0 && IsWhitespace(s[0]) then TrimStart(s[1..]) else s
  }

  function TrimEnd(s: string): (t: string)
    ensures |t| <= |s| && t == s[..|t|]
    ensures |t| > 0 ==> !IsWhitespace(t[|t| - 1])
    ensures forall i :: |t| <= i < |s| ==> IsWhitespace(s[i])
  {
    if |s| > 0 && IsWhitespace(s[|s| - 1]) then TrimEnd(s[..|s| - 1]) else s
  }

  function Trim(s: string): string
  {
    TrimEnd(TrimStart(s))
  }

  /** A field is blank exactly when it is all white space. */
  predicate Blank(s: string)
  {
    forall i :: 0 <= i < |s| ==> IsWhitespace(s[i])
  }

  lemma TrimEmptyIffBlank(s: string)
    ensures Trim(s) == "" <==> Blank(s)
  {
    var a := TrimStart(s);
    if Trim(s) == "" {
    } else {
      var t := Trim(s);
      assert !IsWhitespace(t[0]);
      var k := |s| - |a|;
      assert t[0] == a[0] == s[k];
    }
  }

  /** Trimming keeps every character that is not white space, so testing the
      untrimmed text for an at sign is the same as testing the trimmed one. */
  lemma TrimKeepsAtSign(s: string)
    ensures '@' in Trim(s) <==> '@' in s
  {
    var a := TrimStart(s);
    var t := TrimEnd(a);
    if '@' in s {
      var i :| 0 <= i < |s| && s[i] == '@';
      assert !IsWhitespace(s[i]);
      var k := |s| - |a|;
      assert i >= k;
      assert a[i - k] == '@';
      assert i - k < |t|;
      assert t[i - k] == '@';
    }
    if '@' in t {
      var j :| 0 <= j < |t| && t[j] == '@';
      assert a[j] == '@';
      assert s[|s| - |a| + j] == '@';
    }
  }

  const NameError: string := "Please enter your name"
  const EmailError: string := "Please enter a valid email address"

  /** The error the form reports, if any: the name is checked first, then the
      email, which needs some non-blank text and an at sign. */
  function Validate(name: string, email: string): (r: Option<string>)
    ensures r == Some(NameError) <==> Blank(name)
    ensures r == Some(EmailError) <==> !Blank(name) && (Blank(email) || '@' !in email)
    ensures r == None <==> !Blank(name) && !Blank(email) && '@' in email
  {
    TrimEmptyIffBlank(name);
    TrimEmptyIffBlank(email);
    if Trim(name) == "" then Some(NameError)
    else if Trim(email) == "" || '@' !in email then Some(EmailError)
    else None
  }

  /** An at sign anywhere is all the email needs: with a name given, any
      email holding one passes, surrounding text and whitespace included. */
  lemma AtSignSuffices(name: string, email: string)
    requires !Blank(name) && '@' in email
    ensures Validate(name, email) == None
  {
    var k :| 0 <= k < |email| && email[k] == '@';
    assert !IsWhitespace(email[k]);
  }

  /** A blank name is the one problem reported, whatever the email holds. */
  lemma NameReportedFirst(name: string, email: string)
    requires Blank(name)
    ensures Validate(name, email) == Some(NameError)
  {
  }

  datatype View = FormView | SuccessView

  /** The form's state. */
  class Form {
    var name: string
    var email: string
    var submitted: bool
    var error: string

    constructor ()
      ensures name == "" && email == "" && !submitted && error == ""
    {
      name := "";
      email := "";
      submitted := false;
      error := "";
    }

    function CurrentView(): (v: View)
      reads this
      ensures v.SuccessView? <==> submitted
    {
      if submitted then SuccessView else FormView
    }

    method SetName(s: string)
      modifies this
      ensures name == s && email == old(email) && submitted == old(submitted) && error == old(error)
    {
      name := s;
    }

    method SetEmail(s: string)
      modifies this
      ensures email == s && name == old(name) && submitted == old(submitted) && error == old(error)
    {
      email := s;
    }

    /** Submitting: a problem is shown and nothing is sent; otherwise the
        error is cleared and the thank-you view is selected. */
    method HandleSubmit()
      modifies this
      ensures name == old(name) && email == old(email)
      ensures Validate(name, email).Some? ==> error == Validate(name, email).value && submitted == old(submitted)
      ensures Validate(name, email).None? ==> error == "" && submitted
    {
      if Trim(name) == "" {
        error := NameError;
        return;
      }
      if Trim(email) == "" || '@' !in email {
        error := EmailError;
        return;
      }
      error := "";
      submitted := true;
    }
  }
}
