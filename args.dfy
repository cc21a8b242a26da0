/** `warmup`: the check of the command-line arguments and the process-wide settings
    it fills in. */
module Args {
  import opened Wrappers

  /** Fewest characters each of login, password and output directory may have. */
  const MinLength: nat := 4

  /** What `warmup` makes of an argument list: the three settings, or the status the
      process exits with. */
  datatype Parsed = Accepted(login: string, password: string, outputDir: string) | Rejected(exitCode: int)

  /** The decision of `warmup`. The count is checked first, so a list of the wrong length
      exits with 1 whatever its elements; a list of four exits with 2 exactly when one of
      the three values after the program name is too short; otherwise the three values
      are taken as they are. */
  function Validate(allArgs: seq<string>): (r: Parsed)
    ensures r == Rejected(1) <==> |allArgs| != 4
    ensures |allArgs| == 4 ==> (r == Rejected(2) <==> exists k :: 1 <= k <= 3 && |allArgs[k]| < MinLength)
    ensures r.Accepted? <==> |allArgs| == 4 && forall k :: 1 <= k <= 3 ==> |allArgs[k]| >= MinLength
    ensures r.Accepted? ==> r.login == allArgs[1] && r.password == allArgs[2] && r.outputDir == allArgs[3]
  {
    if |allArgs| != 4 then Rejected(1)
    else if |allArgs[1]| < MinLength || |allArgs[2]| < MinLength || |allArgs[3]| < MinLength then Rejected(2)
    else Accepted(allArgs[1], allArgs[2], allArgs[3])
  }

  /** The globals `CONCEPT2_LOGIN`, `CONCEPT2_PASSWORD` and `OUTPUT_DIR`. */
  class Settings {
    var login: Option<string>
    var password: Option<string>
    var outputDir: string

    /** The values the globals hold before `warmup` runs. */
    constructor ()
      ensures login == None && password == None && outputDir == "."
    {
      login := None;
      password := None;
      outputDir := ".";
    }

    /** `warmup(allArgs)`: on success the three globals are set and nothing is returned;
        otherwise the exit status is returned and the globals keep their values. */
    method Warmup(allArgs: seq<string>) returns (exit: Option<int>)
      modifies this
      ensures Validate(allArgs).Rejected? ==>
        exit == Some(Validate(allArgs).exitCode) &&
        login == old(login) && password == old(password) && outputDir == old(outputDir)
      ensures Validate(allArgs).Accepted? ==>
        exit == None && login == Some(allArgs[1]) && password == Some(allArgs[2]) && outputDir == allArgs[3]
    {
      if |allArgs| != 4 {
        return Some(1);
      }
      if |allArgs[1]| < MinLength || |allArgs[2]| < MinLength || |allArgs[3]| < MinLength {
        return Some(2);
      }
      login := Some(allArgs[1]);
      password := Some(allArgs[2]);
      outputDir := allArgs[3];
      exit := None;
    }
  }
}
