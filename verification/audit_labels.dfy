/**
 * The pure label helpers of the audit-log page (src/app/admin/audit/page.tsx):
 * turning an action code such as "SERVICE_CREATED" into "Service Created",
 * and choosing badge styles for roles and actions.
 */
module AuditLabels {
  import opened Common

  /** `toLowerCase` on one character; only ASCII letters are modelled. */
  function Lower(c: char): char
  {
    if 'A' <= c <= 'Z' then (c as int + 32) as char else c
  }

  function Upper(c: char): char
  {
    if 'a' <= c <= 'z' then (c as int - 32) as char else c
  }

  function LowerAll(s: string): (r: string)
    ensures |r| == |s|
    ensures forall i :: 0 <= i < |s| ==> r[i] == Lower(s[i])
  {
    if |s| == 0 then "" else [Lower(s[0])] + LowerAll(s[1..])
  }

  /** `s.split(sep)`: the pieces between separators; always at least one (possibly empty) piece. */
  function Split(s: string, sep: char): (parts: seq<string>)
    ensures |parts| >= 1
    ensures forall k :: 0 <= k < |parts| ==> sep !in parts[k]
  {
    if |s| == 0 then [""]
    else
      var rest := Split(s[1..], sep);
      if s[0] == sep then [""] + rest
      else [[s[0]] + rest[0]] + rest[1..]
  }

  /** `parts.join(sep)`. */
  function Join(parts: seq<string>, sep: char): string
  {
    if |parts| == 0 then ""
    else if |parts| == 1 then parts[0]
    else parts[0] + [sep] + Join(parts[1..], sep)
  }

  /** `word.charAt(0) + word.slice(1).toLowerCase()`. */
  function FormatWord(w: string): string
  {
    if |w| == 0 then "" else [w[0]] + LowerAll(w[1..])
  }

  function FormatWords(ws: seq<string>): (r: seq<string>)
    ensures |r| == |ws|
  {
    if |ws| == 0 then [] else [FormatWord(ws[0])] + FormatWords(ws[1..])
  }

  /** What `FormatAction` puts at position `i`: separators become spaces, words keep their first letter. */
  function ExpectedLabelChar(action: string, i: nat): char
    requires i < |action|
  {
    if action[i] == '_' then ' '
    else if i == 0 || action[i - 1] == '_' then action[i]
    else Lower(action[i])
  }

  /**
   * `formatAction`: splits on "_", keeps each part's first character and
   * lower-cases the rest, joins with " ". Position by position the label is
   * the action with separators turned into spaces and every letter but a
   * word's first lower-cased; so it is as long as the action and has no "_".
   */
  function FormatAction(action: string): (text: string)
    ensures |text| == |action|
    ensures forall i :: 0 <= i < |action| ==> text[i] == ExpectedLabelChar(action, i)
    ensures '_' !in text
  {
    var text := Join(FormatWords(Split(action, '_')), ' ');
    FormatActionIsScan(action);
    ScanPointwise(action, true);
    text
  }

  /** A left-to-right scan computing the same label, one character at a time. */
  function Scan(a: string, atWordStart: bool): (r: string)
  {
    if |a| == 0 then ""
    else
      (if a[0] == '_' then " " else if atWordStart then [a[0]] else [Lower(a[0])])
        + Scan(a[1..], a[0] == '_')
  }

  /** Whether position `i` of `a` starts a word, given whether position 0 does. */
  predicate StartsWord(a: string, i: nat, atWordStart: bool)
    requires i < |a|
  {
    if i == 0 then atWordStart else a[i - 1] == '_'
  }

  lemma {:induction false} ScanPointwise(a: string, atWordStart: bool)
    ensures |Scan(a, atWordStart)| == |a|
    ensures forall i :: 0 <= i < |a| ==>
      Scan(a, atWordStart)[i] == (if a[i] == '_' then ' ' else if StartsWord(a, i, atWordStart) then a[i] else Lower(a[i]))
  {
    if |a| > 0 {
      var rest := Scan(a[1..], a[0] == '_');
      ScanPointwise(a[1..], a[0] == '_');
      var r := Scan(a, atWordStart);
      var head := if a[0] == '_' then " " else if atWordStart then [a[0]] else [Lower(a[0])];
      assert r == head + rest;
      forall i | 1 <= i < |a|
        ensures r[i] == (if a[i] == '_' then ' ' else if StartsWord(a, i, atWordStart) then a[i] else Lower(a[i]))
      {
        assert r[i] == rest[i - 1];
        assert a[1..][i - 1] == a[i];
        assert StartsWord(a[1..], i - 1, a[0] == '_') == StartsWord(a, i, atWordStart) by {
          if i > 1 { assert a[1..][i - 2] == a[i - 1]; }
        }
      }
    }
  }

  function FormatPart(w: string, atWordStart: bool): string
  {
    if atWordStart then FormatWord(w) else LowerAll(w)
  }

  lemma JoinPrependFirst(x: string, y: string, t: seq<string>, sep: char)
    ensures Join([x + y] + t, sep) == x + Join([y] + t, sep)
  {
    if |t| > 0 {
      assert ([x + y] + t)[1..] == t;
      assert ([y] + t)[1..] == t;
    }
  }

  /** Split-format-join of the action equals the scan, whatever the first part's treatment. */
  lemma {:induction false} SplitFormatJoinIsScan(a: string, atWordStart: bool)
    ensures
      var ps := Split(a, '_');
      Join([FormatPart(ps[0], atWordStart)] + FormatWords(ps[1..]), ' ') == Scan(a, atWordStart)
  {
    var ps := Split(a, '_');
    if |a| == 0 {
      assert FormatWords(ps[1..]) == [];
    } else {
      var ps' := Split(a[1..], '_');
      var tail := FormatWords(ps'[1..]);
      SplitFormatJoinIsScan(a[1..], a[0] == '_');
      if a[0] == '_' {
        assert ps == [""] + ps';
        assert ps[1..] == ps';
        assert FormatWords(ps') == [FormatPart(ps'[0], true)] + tail;
        var m := FormatWords(ps');
        assert [FormatPart(ps[0], atWordStart)] + m == [""] + m;
        assert Join([""] + m, ' ') == "" + [' '] + Join(m, ' ') by {
          assert ([""] + m)[1..] == m;
        }
      } else {
        assert ps == [[a[0]] + ps'[0]] + ps'[1..];
        assert ps[1..] == ps'[1..];
        var head := if atWordStart then [a[0]] else [Lower(a[0])];
        assert FormatPart(ps[0], atWordStart) == head + FormatPart(ps'[0], false) by {
          assert ([a[0]] + ps'[0])[1..] == ps'[0];
          assert ([a[0]] + ps'[0])[0] == a[0];
        }
        JoinPrependFirst(head, FormatPart(ps'[0], false), tail, ' ');
      }
    }
  }

  lemma FormatActionIsScan(a: string)
    ensures Join(FormatWords(Split(a, '_')), ' ') == Scan(a, true)
  {
    var ps := Split(a, '_');
    assert FormatWords(ps) == [FormatPart(ps[0], true)] + FormatWords(ps[1..]);
    SplitFormatJoinIsScan(a, true);
  }

  /** Occurrences of `c` in `s`. */
  function Count(s: string, c: char): nat
  {
    if |s| == 0 then 0 else (if s[0] == c then 1 else 0) + Count(s[1..], c)
  }

  /** `split` yields one piece more than there are separators. */
  lemma {:induction false} SplitPieces(s: string, sep: char)
    ensures |Split(s, sep)| == Count(s, sep) + 1
  {
    if |s| > 0 {
      SplitPieces(s[1..], sep);
    }
  }

  lemma {:induction false} CountCorresponding(s: string, c: char, t: string, d: char)
    requires |s| == |t|
    requires forall i :: 0 <= i < |s| ==> (s[i] == c <==> t[i] == d)
    ensures Count(s, c) == Count(t, d)
  {
    if |s| > 0 {
      assert s[0] == c <==> t[0] == d;
      forall i | 0 <= i < |s[1..]| ensures (s[1..][i] == c <==> t[1..][i] == d) {
        assert s[1..][i] == s[i + 1] && t[1..][i] == t[i + 1];
      }
      CountCorresponding(s[1..], c, t[1..], d);
    }
  }

  /**
   * An action without spaces gives a label with as many space-separated words
   * as the action had "_"-separated parts.
   */
  lemma LabelKeepsWordCount(action: string)
    requires ' ' !in action
    ensures |Split(FormatAction(action), ' ')| == |Split(action, '_')|
  {
    var text := FormatAction(action);
    forall i | 0 <= i < |action| ensures (action[i] == '_' <==> text[i] == ' ') {
      assert action[i] != ' ';
    }
    CountCorresponding(action, '_', text, ' ');
    SplitPieces(action, '_');
    SplitPieces(text, ' ');
  }

  /** An action code in capitals and underscores. */
  predicate IsActionCode(action: string)
  {
    forall i :: 0 <= i < |action| ==> action[i] == '_' || 'A' <= action[i] <= 'Z'
  }

  function UpperAll(s: string): (r: string)
    ensures |r| == |s|
    ensures forall i :: 0 <= i < |s| ==> r[i] == Upper(s[i])
  {
    if |s| == 0 then "" else [Upper(s[0])] + UpperAll(s[1..])
  }

  function SpacesToUnderscores(s: string): (r: string)
    ensures |r| == |s|
    ensures forall i :: 0 <= i < |s| ==> r[i] == if s[i] == ' ' then '_' else s[i]
  {
    if |s| == 0 then "" else [if s[0] == ' ' then '_' else s[0]] + SpacesToUnderscores(s[1..])
  }

  /** For action codes the label loses nothing: upper-casing it and restoring "_" gives the code back. */
  lemma LabelRoundTrip(action: string)
    requires IsActionCode(action)
    ensures UpperAll(SpacesToUnderscores(FormatAction(action))) == action
  {
    var text := FormatAction(action);
    var spaced := SpacesToUnderscores(text);
    var back := UpperAll(spaced);
    forall i | 0 <= i < |action| ensures back[i] == action[i] {
      CharRoundTrip(action, i);
      assert spaced[i] == if text[i] == ' ' then '_' else text[i];
    }
  }

  /** One position of the round trip. */
  lemma CharRoundTrip(action: string, i: nat)
    requires IsActionCode(action) && i < |action|
    ensures var c := ExpectedLabelChar(action, i); Upper(if c == ' ' then '_' else c) == action[i]
  {
    assert action[i] == '_' || 'A' <= action[i] <= 'Z';
  }

  /** Position by position, the expected label of "SERVICE_CREATED". */
  lemma ExpectedServiceCreated(a: string)
    requires a == "SERVICE_CREATED"
    ensures forall i :: 0 <= i < |a| ==> ExpectedLabelChar(a, i) == "Service Created"[i]
  {
  }

  /** The label of the action the services route logs. */
  lemma ServiceCreatedLabel(a: string)
    requires a == "SERVICE_CREATED"
    ensures FormatAction(a) == "Service Created"
  {
    ExpectedServiceCreated(a);
  }

  /** `getRoleBadgeClass`: one badge per known role name, "badge-muted" for anything else. */
  function RoleBadgeClass(role: string): (cls: string)
    ensures cls == "badge-destructive" <==> role == RoleName(Admin)
    ensures cls == "badge-primary" <==> role == RoleName(Provider)
    ensures cls == "badge-accent" <==> role == RoleName(Customer)
    ensures cls == "badge-muted" <==> forall r: Role :: role != RoleName(r)
  {
    match role
    case "ADMIN" => "badge-destructive"
    case "PROVIDER" => "badge-primary"
    case "CUSTOMER" => "badge-accent"
    case _ => "badge-muted"
  }

  predicate IsSuccessAction(action: string)
  {
    Contains(action, "CREATED") || Contains(action, "APPROVED")
  }

  predicate IsDestructiveAction(action: string)
  {
    Contains(action, "CANCELLED") || Contains(action, "REJECTED")
  }

  predicate IsChangeAction(action: string)
  {
    Contains(action, "UPDATED") || Contains(action, "CHANGED")
  }

  /**
   * `getActionBadgeClass`: the first matching group wins, in the order
   * created/approved, cancelled/rejected, updated/changed; otherwise muted.
   */
  function ActionBadgeClass(action: string): (cls: string)
    ensures cls in ["badge-success", "badge-destructive", "badge-primary", "badge-muted"]
    ensures cls == "badge-success" <==> IsSuccessAction(action)
    ensures cls == "badge-destructive" <==> !IsSuccessAction(action) && IsDestructiveAction(action)
    ensures cls == "badge-primary" <==>
      !IsSuccessAction(action) && !IsDestructiveAction(action) && IsChangeAction(action)
  {
    if Contains(action, "CREATED") || Contains(action, "APPROVED") then "badge-success"
    else if Contains(action, "CANCELLED") || Contains(action, "REJECTED") then "badge-destructive"
    else if Contains(action, "UPDATED") || Contains(action, "CHANGED") then "badge-primary"
    else "badge-muted"
  }

  /** An action naming both a creation and a cancellation is shown as a success. */
  lemma CreatedWinsOverCancelled(action: string, i: nat, j: nat)
    requires i + 7 <= |action| && action[i..i + 7] == "CREATED"
    requires j + 9 <= |action| && action[j..j + 9] == "CANCELLED"
    ensures IsDestructiveAction(action)
    ensures ActionBadgeClass(action) == "badge-success"
  {
    ContainsAt(action, "CREATED", i);
    ContainsAt(action, "CANCELLED", j);
  }
}
