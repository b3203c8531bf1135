/**
  Required-field validation shared by createProduct, updateProduct and
  register: each handler pushes the name of every falsy field onto
  `missingFields`, in a fixed order, and builds its message from the list.
 */
module Fields {
  import opened Js

  /** One required field: the name pushed when it is missing, and whether it is truthy. */
  datatype Check = Check(name: string, truthy: bool)

  /** What `!field && missingFields.push(name)` adds for one check. */
  function Reported(check: Check): seq<string> {
    if check.truthy then [] else [check.name]
  }

  /** The names of the falsy fields, in the order of the checks. */
  function MissingNames(checks: seq<Check>): (names: seq<string>)
    ensures |names| <= |checks|
    ensures AllTruthy(checks) ==> names == []
  {
    if checks == [] then [] else Reported(checks[0]) + MissingNames(checks[1..])
  }

  /** Checking one more field appends its name, if it is falsy, to what the earlier checks reported. */
  lemma {:induction false} MissingNamesPush(checks: seq<Check>, k: nat)
    requires k < |checks|
    ensures MissingNames(checks[..k + 1]) == MissingNames(checks[..k]) + Reported(checks[k])
  {
    if k == 0 {
      assert checks[..1][1..] == [];
    } else {
      var rest := checks[1..];
      MissingNamesPush(rest, k - 1);
      assert checks[..k + 1][1..] == rest[..k];
      assert checks[..k][1..] == rest[..k - 1];
      assert rest[k - 1] == checks[k];
      assert MissingNames(checks[..k]) == Reported(checks[0]) + MissingNames(rest[..k - 1]);
      assert MissingNames(checks[..k + 1]) == Reported(checks[0]) + MissingNames(rest[..k]);
    }
  }

  /** Three checks report as three pushes in a row. */
  lemma MissingNamesOfThree(c: seq<Check>)
    requires |c| == 3
    ensures MissingNames(c) == Reported(c[0]) + Reported(c[1]) + Reported(c[2])
  {
    assert c[..0] == [];
    MissingNamesPush(c, 0);
    MissingNamesPush(c, 1);
    MissingNamesPush(c, 2);
    assert c[..3] == c;
  }

  /** Seven checks report as seven pushes in a row. */
  lemma MissingNamesOfSeven(c: seq<Check>)
    requires |c| == 7
    ensures MissingNames(c) == Reported(c[0]) + Reported(c[1]) + Reported(c[2]) + Reported(c[3])
                               + Reported(c[4]) + Reported(c[5]) + Reported(c[6])
  {
    MissingNamesOfThree(c[..3]);
    assert c[..3][..3] == c[..3];
    MissingNamesPush(c, 3);
    MissingNamesPush(c, 4);
    MissingNamesPush(c, 5);
    MissingNamesPush(c, 6);
    assert c[..7] == c;
  }

  predicate AllTruthy(checks: seq<Check>) {
    forall i :: 0 <= i < |checks| ==> checks[i].truthy
  }

  /** Nothing is reported missing exactly when every field is truthy. */
  lemma {:induction false} MissingNamesEmpty(checks: seq<Check>)
    ensures MissingNames(checks) == [] <==> AllTruthy(checks)
  {
    if checks != [] {
      MissingNamesEmpty(checks[1..]);
      assert AllTruthy(checks) <==> checks[0].truthy && AllTruthy(checks[1..]);
    }
  }

  /** A name is reported exactly when some check with that name is falsy. */
  lemma {:induction false} MissingNamesMembers(checks: seq<Check>, name: string)
    ensures name in MissingNames(checks) <==>
            exists i :: 0 <= i < |checks| && checks[i].name == name && !checks[i].truthy
  {
    if checks != [] {
      MissingNamesMembers(checks[1..], name);
      if name in MissingNames(checks[1..]) {
        var i :| 0 <= i < |checks[1..]| && checks[1..][i].name == name && !checks[1..][i].truthy;
        assert checks[i + 1] == checks[1..][i];
      }
      if exists i :: 0 <= i < |checks| && checks[i].name == name && !checks[i].truthy {
        var i :| 0 <= i < |checks| && checks[i].name == name && !checks[i].truthy;
        if i > 0 {
          assert checks[1..][i - 1] == checks[i];
        }
      }
    }
  }

  /** At most one name per check is reported. */
  lemma {:induction false} MissingNamesBound(checks: seq<Check>)
    ensures |MissingNames(checks)| <= |checks|
  {
    if checks != [] {
      MissingNamesBound(checks[1..]);
    }
  }

  /** Exactly one name is reported when exactly one check is falsy, and it is that check's. */
  lemma {:induction false} MissingNamesSingle(checks: seq<Check>, j: nat)
    requires j < |checks| && !checks[j].truthy
    requires forall i :: 0 <= i < |checks| && i != j ==> checks[i].truthy
    ensures MissingNames(checks) == [checks[j].name]
  {
    if j == 0 {
      MissingNamesEmpty(checks[1..]);
    } else {
      MissingNamesSingle(checks[1..], j - 1);
    }
  }

  // ---------------------------------------------------------------------------
  // The two spellings of the 422 message.

  /** createProduct: `Missing ${n > 1 ? "fields" : "field"}: ${list}`. */
  function ProductMissingMessage(missing: seq<string>): (m: string)
    ensures |m| == (if |missing| > 1 then 16 else 15) + |Join(missing, ", ")|
    ensures m[..13] == "Missing field" && (m[13] == 's' <==> |missing| > 1)
    ensures m[|m| - |Join(missing, ", ")|..] == Join(missing, ", ")
  {
    "Missing " + (if |missing| > 1 then "fields" else "field") + ": " + Join(missing, ", ")
  }

  /** register: `Missing field${n > 1 ? "s" : ""}: ${list}`. */
  function RegisterMissingMessage(missing: seq<string>): (m: string)
    ensures |m| == (if |missing| > 1 then 16 else 15) + |Join(missing, ", ")|
    ensures m[..13] == "Missing field" && (m[13] == 's' <==> |missing| > 1)
    ensures m[|m| - |Join(missing, ", ")|..] == Join(missing, ", ")
  {
    "Missing field" + (if |missing| > 1 then "s" else "") + ": " + Join(missing, ", ")
  }

  /** updateProduct: always `Missing fields: ${list}`, whatever the count. */
  function UpdateMissingMessage(missing: seq<string>): (m: string)
    ensures |m| == 16 + |Join(missing, ", ")|
    ensures m[..16] == "Missing fields: " && m[16..] == Join(missing, ", ")
  {
    "Missing fields: " + Join(missing, ", ")
  }

  /** The two singular/plural spellings produce the same text for every list. */
  lemma MissingMessagesAgree(missing: seq<string>)
    ensures ProductMissingMessage(missing) == RegisterMissingMessage(missing)
  {
  }

  /** The singular and plural headings never give the same message. */
  lemma SingularNotPlural(list: string)
    ensures "Missing field: " + list != "Missing fields: " + list
  {
  }

  /** The message heading assembled from its pieces. */
  lemma Headings(list: string)
    ensures "Missing " + "field" + ": " + list == "Missing field: " + list
    ensures "Missing " + "fields" + ": " + list == "Missing fields: " + list
  {
  }

  /** The noun is singular exactly when one field is missing; updateProduct's message is plural even then. */
  lemma SingularIffOne(missing: seq<string>)
    requires |missing| >= 1
    ensures |missing| == 1 ==> ProductMissingMessage(missing) == "Missing field: " + missing[0]
    ensures |missing| > 1 ==> ProductMissingMessage(missing) == "Missing fields: " + Join(missing, ", ")
    ensures ProductMissingMessage(missing) == UpdateMissingMessage(missing) <==> |missing| > 1
  {
    var list := Join(missing, ", ");
    Headings(list);
    if |missing| == 1 {
      SingularNotPlural(list);
    }
  }
}
