/** The file-system side of the credential preparation: which `common.ini`
    files `_prepare_ini` rewrites, and which `accounts.dat` files
    `_delete_accounts_dat` removes.

    The file system is a map from path to contents, plus the paths the
    operating system refuses to open or remove (a file held open by the
    running terminal), each with the text of the error it raises, plus which
    texts the locale codec of text-mode files can encode. `glob.glob`
    is modelled by the candidate paths its pattern can expand to, in the
    order it lists them, of which it returns those that exist. */
module Host {
  import opened Values
  import opened IniPatch

  type Path = string

  const IniPath: Path := "C:\\Program Files\\MetaTrader 5\\Config\\common.ini"
  const AccountsPath: Path := "C:\\Program Files\\MetaTrader 5\\Config\\accounts.dat"

  datatype Fs = Fs(files: map<Path, string>, locked: map<Path, string>, encodes: string -> bool)

  /** The expansions of the two AppData glob patterns
      (`%APPDATA%\MetaQuotes\Terminal\*\config\common.ini` and
      `...\accounts.dat`). */
  datatype Layout = Layout(iniCandidates: seq<Path>, accountsCandidates: seq<Path>)

  /** `glob.glob`: the candidates that exist, in candidate order. */
  function Glob(fs: Fs, cands: seq<Path>): (r: seq<Path>)
    ensures |r| <= |cands|
    ensures forall p :: p in r <==> p in cands && p in fs.files
  {
    if cands == [] then []
    else (if cands[0] in fs.files then [cands[0]] else []) + Glob(fs, cands[1..])
  }

  /** The first path `glob.glob` lists is the first existing candidate. */
  lemma {:induction false} GlobFirst(fs: Fs, cands: seq<Path>)
    ensures var g := Glob(fs, cands);
            g != [] ==> exists i | 0 <= i < |cands| ::
                          g[0] == cands[i] && forall j | 0 <= j < i :: cands[j] !in fs.files
  {
    if cands != [] && cands[0] !in fs.files {
      GlobFirst(fs, cands[1..]);
      var g := Glob(fs, cands[1..]);
      if g != [] {
        var i :| 0 <= i < |cands[1..]| && g[0] == cands[1..][i] &&
                 forall j | 0 <= j < i :: cands[1..][j] !in fs.files;
        assert g[0] == cands[i + 1];
        forall j | 0 <= j < i + 1
          ensures cands[j] !in fs.files
        {
          if j > 0 {
            assert cands[j] == cands[1..][j - 1];
          }
        }
      }
    }
  }

  /** Glob finds nothing when no candidate exists. */
  lemma GlobNone(fs: Fs, cands: seq<Path>)
    ensures (forall p | p in cands :: p !in fs.files) ==> Glob(fs, cands) == []
  {
    var g := Glob(fs, cands);
    if g != [] {
      assert g[0] in g;
    }
  }

  /** `_find_appdata_ini`: the first existing AppData `common.ini`. */
  function AppdataIni(fs: Fs, layout: Layout): (r: Option<Path>)
    ensures r.Some? <==> exists p :: p in layout.iniCandidates && p in fs.files
    ensures r.Some? ==> r.value in layout.iniCandidates && r.value in fs.files
  {
    var g := Glob(fs, layout.iniCandidates);
    if g == [] then None
    else
      assert g[0] in g;
      Some(g[0])
  }

  /** `_get_ini_paths`: the fixed path, then the AppData one when it is a
      non-empty path. */
  function IniPaths(fs: Fs, layout: Layout): (r: seq<Path>)
    ensures 1 <= |r| <= 2 && r[0] == IniPath
    ensures |r| == 2 ==> r[1] in layout.iniCandidates && r[1] in fs.files
  {
    match AppdataIni(fs, layout)
    case Some(p) => if p != "" then [IniPath, p] else [IniPath]
    case None => [IniPath]
  }

  /** With no empty candidate, a second path is patched exactly when some
      AppData `common.ini` exists, and it is the first one glob lists. */
  lemma IniPathsSecond(fs: Fs, layout: Layout)
    requires forall i | 0 <= i < |layout.iniCandidates| :: layout.iniCandidates[i] != ""
    ensures var r := IniPaths(fs, layout);
            |r| == 2 <==> exists p :: p in layout.iniCandidates && p in fs.files
    ensures var r, cs := IniPaths(fs, layout), layout.iniCandidates;
            |r| == 2 ==> exists i | 0 <= i < |cs| ::
                           r[1] == cs[i] && forall j | 0 <= j < i :: cs[j] !in fs.files
  {
    GlobFirst(fs, layout.iniCandidates);
  }

  /** What a file holds after `open(p, "w")` and `f.write(t)`: `t` when the
      codec can encode it; otherwise `write` raises after `open` has already
      truncated the file, which is left empty. */
  function Written(encodes: string -> bool, t: string): (w: string)
    ensures w == t || w == []
  {
    if encodes(t) then t else []
  }

  /** The file text after one pass of the loop body: patched, then written. */
  function PatchWrite(encodes: string -> bool, text: string, login: Option<Scalar>, server: Option<Scalar>): string {
    Written(encodes, PatchText(text, login, server))
  }

  /** `PatchWrite` applied `n` times. */
  function PatchN(n: nat, encodes: string -> bool, text: string, login: Option<Scalar>, server: Option<Scalar>): string
    decreases n
  {
    if n == 0 then text else PatchN(n - 1, encodes, PatchWrite(encodes, text, login, server), login, server)
  }

  /** One iteration of the loop of `_prepare_ini`: read, rewrite and write
      back one path; a missing or locked file raises at `open`, and the
      exception is swallowed with the file left as it was. */
  function PrepareOne(fs: Fs, p: Path, login: Option<Scalar>, server: Option<Scalar>): Fs {
    if p in fs.files && p !in fs.locked then
      fs.(files := fs.files[p := PatchWrite(fs.encodes, fs.files[p], login, server)])
    else fs
  }

  function PrepareAll(fs: Fs, paths: seq<Path>, login: Option<Scalar>, server: Option<Scalar>): Fs
    decreases |paths|
  {
    if paths == [] then fs
    else PrepareAll(PrepareOne(fs, paths[0], login, server), paths[1..], login, server)
  }

  /** `_prepare_ini(login=login, server=server)`. */
  function PrepareIni(fs: Fs, layout: Layout, login: Option<Scalar>, server: Option<Scalar>): Fs {
    PrepareAll(fs, IniPaths(fs, layout), login, server)
  }

  /** The loop never creates, removes, locks or unlocks a file. */
  lemma {:induction false} PrepareAllKeeps(fs: Fs, paths: seq<Path>, login: Option<Scalar>, server: Option<Scalar>)
    ensures var r := PrepareAll(fs, paths, login, server);
            r.locked == fs.locked && r.files.Keys == fs.files.Keys && r.encodes == fs.encodes
    decreases |paths|
  {
    if paths != [] {
      PrepareAllKeeps(PrepareOne(fs, paths[0], login, server), paths[1..], login, server);
    }
  }

  /** Every existing, unlocked file is patched and written once per
      occurrence in the path list, whatever happens on the other paths;
      locked files, absent paths and files not in the list are left alone. */
  lemma {:induction false} PrepareAllSpec(fs: Fs, paths: seq<Path>, login: Option<Scalar>, server: Option<Scalar>)
    ensures var r := PrepareAll(fs, paths, login, server);
            r.locked == fs.locked && r.files.Keys == fs.files.Keys &&
            forall p | p in fs.files ::
              r.files[p] == if p in fs.locked then fs.files[p]
                            else PatchN(multiset(paths)[p], fs.encodes, fs.files[p], login, server)
    decreases |paths|
  {
    PrepareAllKeeps(fs, paths, login, server);
    forall p | p in fs.files
      ensures PrepareAll(fs, paths, login, server).files[p] ==
              if p in fs.locked then fs.files[p] else PatchN(multiset(paths)[p], fs.encodes, fs.files[p], login, server)
    {
      PrepareAllAt(fs, paths, login, server, p);
    }
  }

  /** What the loop leaves in one file. */
  lemma {:induction false} PrepareAllAt(fs: Fs, paths: seq<Path>, login: Option<Scalar>, server: Option<Scalar>, p: Path)
    requires p in fs.files
    ensures var r := PrepareAll(fs, paths, login, server);
            p in r.files &&
            r.files[p] == if p in fs.locked then fs.files[p] else PatchN(multiset(paths)[p], fs.encodes, fs.files[p], login, server)
    decreases |paths|
  {
    PrepareAllKeeps(fs, paths, login, server);
    if paths != [] {
      var q := paths[0];
      var fs1 := PrepareOne(fs, q, login, server);
      PrepareAllAt(fs1, paths[1..], login, server, p);
      assert paths == [q] + paths[1..];
      assert multiset(paths)[p] == multiset([q])[p] + multiset(paths[1..])[p];
    }
  }



  /** When the AppData candidates do not include the fixed path, each of the
      (at most two) paths is patched once: every existing unlocked file on
      the list becomes `PatchText` of its contents when the codec can encode
      that, and empty when it cannot; nothing else changes. */
  lemma PrepareIniOnce(fs: Fs, layout: Layout, login: Option<Scalar>, server: Option<Scalar>)
    requires IniPath !in layout.iniCandidates
    ensures var r, ps := PrepareIni(fs, layout, login, server), IniPaths(fs, layout);
            r.locked == fs.locked && r.files.Keys == fs.files.Keys &&
            forall p | p in fs.files ::
              r.files[p] == if p !in ps || p in fs.locked then fs.files[p]
                            else if fs.encodes(PatchText(fs.files[p], login, server)) then PatchText(fs.files[p], login, server)
                            else []
  {
    var ps := IniPaths(fs, layout);
    PrepareAllSpec(fs, ps, login, server);
    forall p | p in fs.files
      ensures multiset(ps)[p] == if p in ps then 1 else 0
    {
      if |ps| == 2 {
        assert ps == [ps[0]] + [ps[1]];
        assert ps[0] != ps[1];
      } else {
        assert ps == [ps[0]];
      }
    }
  }

  /*** accounts.dat ***/

  /** The outcome of `_delete_accounts_dat`: the file system afterwards and,
      when a removal raised, the error that escapes. */
  datatype Removal = Removal(fs: Fs, error: Option<string>)

  /** A path whose removal raises something other than `FileNotFoundError`. */
  predicate Blocked(fs: Fs, p: Path) {
    p in fs.files && p in fs.locked
  }

  /** The loop of `_delete_accounts_dat`: a missing file is skipped, and the
      first existing locked file stops the loop with its error. */
  function RemoveAll(fs: Fs, paths: seq<Path>): (r: Removal)
    ensures r.fs.locked == fs.locked && r.fs.files.Keys <= fs.files.Keys
    decreases |paths|
  {
    if paths == [] then Removal(fs, None)
    else if Blocked(fs, paths[0]) then Removal(fs, Some(fs.locked[paths[0]]))
    else RemoveAll(fs.(files := fs.files - {paths[0]}), paths[1..])
  }

  function Elems(paths: seq<Path>): set<Path> {
    set p | p in paths
  }

  /** Removing a path that is not blocked leaves every path blocked or not
      as it was. */
  lemma RemoveKeepsBlocked(fs: Fs, q: Path)
    requires !Blocked(fs, q)
    ensures forall p :: Blocked(fs.(files := fs.files - {q}), p) <==> Blocked(fs, p)
  {
  }

  /** Removal succeeds exactly when no path on the list is blocked, and then
      every listed file is gone and every other one is kept. */
  lemma {:induction false} RemoveAllSpec(fs: Fs, paths: seq<Path>)
    ensures var r := RemoveAll(fs, paths);
            r.error.None? <==> forall i | 0 <= i < |paths| :: !Blocked(fs, paths[i])
    ensures var r := RemoveAll(fs, paths);
            r.error.None? ==> r.fs.files == fs.files - Elems(paths)
    decreases |paths|
  {
    if paths != [] && !Blocked(fs, paths[0]) {
      var q := paths[0];
      var fs1 := fs.(files := fs.files - {q});
      RemoveAllSpec(fs1, paths[1..]);
      RemoveKeepsBlocked(fs, q);
      assert Elems(paths) == {q} + Elems(paths[1..]);
      assert forall i | 0 <= i < |paths| - 1 :: paths[1..][i] == paths[i + 1];
    }
  }

  /** On failure the error is that of the first blocked path, and only the
      paths before it were removed. */
  lemma {:induction false} RemoveAllFails(fs: Fs, paths: seq<Path>)
    ensures var r := RemoveAll(fs, paths);
            r.error.Some? ==> exists f | 0 <= f < |paths| ::
                                Blocked(fs, paths[f]) &&
                                (forall i | 0 <= i < f :: !Blocked(fs, paths[i])) &&
                                r.error.value == fs.locked[paths[f]] &&
                                r.fs.files == fs.files - Elems(paths[..f])
    decreases |paths|
  {
    if paths == [] {
    } else if Blocked(fs, paths[0]) {
      assert Elems(paths[..0]) == {};
    } else {
      var q := paths[0];
      var fs1 := fs.(files := fs.files - {q});
      RemoveAllFails(fs1, paths[1..]);
      var r := RemoveAll(fs1, paths[1..]);
      if r.error.Some? {
        var f :| 0 <= f < |paths[1..]| &&
                 Blocked(fs1, paths[1..][f]) &&
                 (forall i | 0 <= i < f :: !Blocked(fs1, paths[1..][i])) &&
                 r.error.value == fs1.locked[paths[1..][f]] &&
                 r.fs.files == fs1.files - Elems(paths[1..][..f]);
        FailsAfterFirst(fs, paths, f, r);
      }
    }
  }

  /** The inductive step of `RemoveAllFails`: a failure at `f` in the rest of
      the list is a failure at `f + 1` in the whole list. */
  lemma FailsAfterFirst(fs: Fs, paths: seq<Path>, f: nat, r: Removal)
    requires |paths| > 0 && !Blocked(fs, paths[0])
    requires var fs1 := fs.(files := fs.files - {paths[0]});
             f < |paths| - 1 &&
             Blocked(fs1, paths[1..][f]) &&
             (forall i | 0 <= i < f :: !Blocked(fs1, paths[1..][i])) &&
             r.error == Some(fs1.locked[paths[1..][f]]) &&
             r.fs.files == fs1.files - Elems(paths[1..][..f])
    ensures Blocked(fs, paths[f + 1]) && (forall i | 0 <= i < f + 1 :: !Blocked(fs, paths[i]))
    ensures r.error == Some(fs.locked[paths[f + 1]])
    ensures r.fs.files == fs.files - Elems(paths[..f + 1])
  {
    var q := paths[0];
    RemoveKeepsBlocked(fs, q);
    assert forall i | 0 <= i < |paths| - 1 :: paths[1..][i] == paths[i + 1];
    assert paths[..f + 1] == [q] + paths[1..][..f];
    assert Elems(paths[..f + 1]) == {q} + Elems(paths[1..][..f]);
  }

  /** Running the removal loop a second time over the same list changes
      nothing and ends the same way. */
  lemma {:induction false} RemoveAllIdempotent(fs: Fs, paths: seq<Path>)
    ensures var r := RemoveAll(fs, paths);
            RemoveAll(r.fs, paths) == r
    decreases |paths|
  {
    if paths != [] && !Blocked(fs, paths[0]) {
      var q := paths[0];
      var fs1 := fs.(files := fs.files - {q});
      var r := RemoveAll(fs1, paths[1..]);
      RemoveAllIdempotent(fs1, paths[1..]);
      assert q !in r.fs.files;
      assert r.fs.(files := r.fs.files - {q}) == r.fs;
    }
  }

  /** `_delete_accounts_dat`: the fixed path, then every AppData match. */
  function AccountsPaths(fs: Fs, layout: Layout): (r: seq<Path>)
    ensures |r| >= 1 && r[0] == AccountsPath
  {
    [AccountsPath] + Glob(fs, layout.accountsCandidates)
  }

  function DeleteAccounts(fs: Fs, layout: Layout): Removal {
    RemoveAll(fs, AccountsPaths(fs, layout))
  }

  /** Deleting the `accounts.dat` files succeeds unless the fixed one or an
      AppData one exists and is locked; on success all of them are gone and
      nothing else changed, and a second deletion finds nothing to do. */
  lemma DeleteAccountsSpec(fs: Fs, layout: Layout)
    ensures var r := DeleteAccounts(fs, layout);
            r.error.None? <==> !Blocked(fs, AccountsPath) &&
                               forall p | p in layout.accountsCandidates :: !Blocked(fs, p)
    ensures var r := DeleteAccounts(fs, layout);
            r.error.None? ==>
              r.fs.locked == fs.locked &&
              r.fs.files == fs.files - ({AccountsPath} + Elems(layout.accountsCandidates)) &&
              DeleteAccounts(r.fs, layout) == r
  {
    var ps := AccountsPaths(fs, layout);
    var g := Glob(fs, layout.accountsCandidates);
    RemoveAllSpec(fs, ps);
    RemoveAllIdempotent(fs, ps);
    assert Elems(ps) == {AccountsPath} + Elems(g);
    var r := DeleteAccounts(fs, layout);
    if forall i | 0 <= i < |ps| :: !Blocked(fs, ps[i]) {
      forall p | p in layout.accountsCandidates
        ensures !Blocked(fs, p)
      {
        if p in fs.files {
          assert p in g;
          var i :| 0 <= i < |g| && g[i] == p;
          assert ps[i + 1] == p;
        }
      }
      SecondDeletion(fs, layout, r.fs);
    } else {
      var i :| 0 <= i < |ps| && Blocked(fs, ps[i]);
      if i > 0 {
        assert ps[i] in g;
      }
    }
  }

  /** After a successful deletion, the AppData glob finds nothing and the
      fixed path is absent, so a second deletion removes nothing. */
  lemma SecondDeletion(fs: Fs, layout: Layout, after: Fs)
    requires after.locked == fs.locked
    requires after.files == fs.files - ({AccountsPath} + Elems(layout.accountsCandidates))
    ensures DeleteAccounts(after, layout) == Removal(after, None)
  {
    assert forall p | p in layout.accountsCandidates :: p in Elems(layout.accountsCandidates);
    assert forall p | p in layout.accountsCandidates :: p !in after.files;
    GlobNone(after, layout.accountsCandidates);
    var ps := AccountsPaths(after, layout);
    assert ps == [AccountsPath];
    assert AccountsPath !in after.files;
    assert after.files - {AccountsPath} == after.files;
    assert ps[1..] == [];
    assert RemoveAll(after, ps) == RemoveAll(after.(files := after.files - {AccountsPath}), []);
  }
}
