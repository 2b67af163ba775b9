/**
 Account names: the gate of the command loop, the file name of the store, and the
 listing that finds the accounts again after a restart.  A `char` stands for one byte.
 */
module Accounts {
  import opened Wrappers

  const SUFFIX := ".session.json"

  predicate Allowed(c: char) {
    c != '/' && c != '\\' && c != '.' && c >= ' '
  }

  /** accountFile, below the state directory. */
  function AccountFile(account: string): Option<string> {
    if account == "" || |account| > 128 || exists i :: 0 <= i < |account| && !Allowed(account[i]) then None
    else Some(account + SUFFIX)
  }

  /** One to 128 bytes, none of them a separator, a dot or a control character. */
  predicate GoodName(account: string) {
    1 <= |account| <= 128 && forall c :: c in account ==> c != '/' && c != '\\' && c != '.' && c as int >= 0x20
  }

  /** The store names a file for exactly the good names. */
  lemma NamedExactly(account: string)
    ensures AccountFile(account).Some? <==> GoodName(account)
  {
    if AccountFile(account).Some? {
      forall c | c in account
        ensures Allowed(c)
      {
        var i :| 0 <= i < |account| && account[i] == c;
      }
    } else if i :| 0 <= i < |account| && !Allowed(account[i]) {
      assert account[i] in account;
    }
  }

  /** validAccount: the command gate accepts exactly the names the store accepts. */
  method ValidAccount(account: string) returns (ok: bool)
    ensures ok == AccountFile(account).Some?
    ensures ok <==> GoodName(account)
  {
    if account == "" || |account| > 128 {
      return false;
    }
    for i := 0 to |account|
      invariant forall j :: 0 <= j < i ==> Allowed(account[j])
    {
      var r := account[i];
      assert r in account;
      if r == '/' || r == '\\' || r == '.' || r == '\0' || r < ' ' {
        return false;
      }
    }
    ok := true;
  }

  /** What Accounts makes of one directory entry. */
  function ListedAccount(file: string): Option<string> {
    if |file| >= |SUFFIX| && file[|file| - |SUFFIX|..] == SUFFIX then Some(file[..|file| - |SUFFIX|]) else None
  }

  predicate SessionTemp(file: string) {
    |file| >= 4 && ".session-" <= file && file[|file| - 4..] == ".tmp"
  }

  /** A temp file's name is what the store's pattern makes: anything between its two ends. */
  lemma TempExactly(file: string)
    ensures SessionTemp(file) <==> exists middle :: file == ".session-" + middle + ".tmp"
  {
    if SessionTemp(file) {
      var tail := file[|file| - 4..];
      assert tail[0] == '.' && file[|file| - 4] == '.';
      assert |file| - 4 >= 9 by {
        assert file[0] == '.' && forall i :: 1 <= i < 9 ==> file[i] == ".session-"[i];
        assert tail[1] == 't' && tail[2] == 'm' && tail[3] == 'p';
      }
      assert file == ".session-" + file[9..|file| - 4] + ".tmp";
    }
  }

  /**
   Listing undoes naming: an accepted account is found again under its own name and no other,
   and temp files never are.
   */
  lemma ListingFindsTheAccount(account: string, file: string)
    ensures AccountFile(account) == Some(file)
            <==> ListedAccount(file) == Some(account) && AccountFile(account).Some?
    ensures ListedAccount(file).Some? <==> exists name :: file == name + ".session.json"
    ensures SessionTemp(file) ==> ListedAccount(file).None?
  {
    if ListedAccount(file).Some? {
      assert file == file[..|file| - |SUFFIX|] + ".session.json";
    }
    if name :| file == name + ".session.json" {
      assert file[|name|..] == SUFFIX;
    }
    if AccountFile(account).Some? && ListedAccount(file) == Some(account) {
      assert file == account + SUFFIX;
    }
    if AccountFile(account) == Some(file) {
      assert file[|account|..] == SUFFIX && file[..|account|] == account;
    }
    if SessionTemp(file) {
      assert file[|file| - 1] == file[|file| - 4..][3] == 'p';
      if |file| >= |SUFFIX| {
        assert file[|file| - 1] == file[|file| - |SUFFIX|..][|SUFFIX| - 1];
      }
    }
  }
}
