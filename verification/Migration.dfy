/** The one-off migration of Pyrogram session files into sealed gotd blobs
    (internal/migrate/migrate.go) over the at-rest envelope
    (internal/cryptoutil/fernet.go). Fernet itself is a parameter: a pair of
    functions of which only "what was encrypted decrypts to itself" is used. */
module Migration {
  import opened Options

  newtype byte = x: int | 0 <= x < 256

  type Blob = seq<byte>

  /** encrypt takes a nonce and may fail; decrypt is None for a foreign token. */
  datatype Box = Box(encrypt: (Blob, nat) -> Option<Blob>, decrypt: Blob -> Option<Blob>)
  {
    ghost predicate Sound() {
      forall p: Blob, n: nat :: encrypt(p, n).Some? ==> decrypt(encrypt(p, n).value) == Some(p)
    }
  }

  /** "tggw1:" */
  const ENVELOPE: Blob := [116, 103, 103, 119, 49, 58]

  predicate IsSealed(b: Blob) { ENVELOPE <= b }

  function SealBlob(box: Box, plain: Blob, nonce: nat): Option<Blob> {
    var token := box.encrypt(plain, nonce);
    if token.None? then None else Some(ENVELOPE + token.value)
  }

  /** Legacy plaintext opens to itself; a sealed blob only under its key. */
  function OpenBlob(box: Box, b: Blob): Option<Blob> {
    if !IsSealed(b) then Some(b) else box.decrypt(b[|ENVELOPE|..])
  }

  /** What was sealed opens to the same bytes and starts with the letters tggw1:. */
  lemma SealRoundTrip(box: Box, plain: Blob, nonce: nat)
    requires box.Sound() && SealBlob(box, plain, nonce).Some?
    ensures var b := SealBlob(box, plain, nonce).value;
            && IsSealed(b) && OpenBlob(box, b) == Some(plain)
            && |b| >= 6 && forall i | 0 <= i < 6 :: b[i] as int == "tggw1:"[i] as int
    ensures SealBlob(box, plain, nonce).Some? <==> box.encrypt(plain, nonce).Some?
  {
    var token := box.encrypt(plain, nonce).value;
    assert (ENVELOPE + token)[|ENVELOPE|..] == token;
  }

  // ---- A run ----

  type Table = map<string, Blob>

  /** A .session file: its alias and the gotd blob built from it, None when it
      cannot be read or converted. */
  datatype File = File(alias: string, blob: Option<Blob>)

  datatype Report = Report(migrated: nat, skipped: nat, reencrypted: nat, errors: nat, needsNewLogin: nat)
  {
    function LoginsRequired(): nat { errors + needsNewLogin }
  }

  ghost predicate DistinctAliases(files: seq<File>) {
    forall i, j | 0 <= i < j < |files| :: files[i].alias != files[j].alias
  }

  /** The aliases of the first n files. */
  function Names(files: seq<File>, n: nat): set<string>
    requires n <= |files|
  {
    set k | 0 <= k < n :: files[k].alias
  }

  lemma NamesStep(files: seq<File>, n: nat)
    requires n < |files| && DistinctAliases(files)
    ensures Names(files, n + 1) == Names(files, n) + {files[n].alias} && files[n].alias !in Names(files, n)
  {}

  /** The row of file f opens to the blob built from f. */
  ghost predicate Carried(box: Box, t: Table, f: File) {
    f.blob.Some? && f.alias in t && OpenBlob(box, t[f.alias]) == f.blob
  }

  ghost predicate AllSealed(t: Table) { forall a | a in t :: IsSealed(t[a]) }

  ghost predicate AllCarried(box: Box, t: Table, files: seq<File>, n: nat)
    requires n <= |files|
  {
    forall k | 0 <= k < n :: Carried(box, t, files[k])
  }

  /** Nothing is left to do: the state a clean run leaves behind. */
  ghost predicate Settled(box: Box, files: seq<File>, t: Table) {
    AllSealed(t) && AllCarried(box, t, files, |files|)
  }

  ghost predicate SameElsewhere(names: set<string>, t: Table, t': Table) {
    forall a | a !in names :: (a in t' <==> a in t) && (a in t ==> t'[a] == t[a])
  }

  // ---- What goes wrong ----

  /** The file's row is sealed under another key. */
  ghost predicate Unreadable(box: Box, t: Table, f: File) { f.alias in t && OpenBlob(box, t[f.alias]).None? }

  predicate SealFails(box: Box, plain: Blob, nonce: nat) { box.encrypt(plain, nonce).None? }

  /** The row of f does not open, or a real run has to seal f and cannot. */
  ghost predicate FailsHere(box: Box, f: File, t: Table, dryRun: bool, nonce: nat)
    requires f.blob.Some?
  {
    Unreadable(box, t, f) || (!dryRun && !Carried(box, t, f) && SealFails(box, f.blob.value, nonce))
  }

  /** File f cannot be migrated into table t: it has no blob, or it fails here. */
  ghost predicate Fails(box: Box, f: File, t: Table, dryRun: bool, nonces: string -> nat) {
    f.blob.None? || FailsHere(box, f, t, dryRun, nonces(f.alias))
  }

  /** The failing ones of the first n files, and the carried ones. */
  ghost function Failing(box: Box, files: seq<File>, n: nat, t: Table, dryRun: bool, nonces: string -> nat): set<nat>
    requires n <= |files|
  {
    set i: nat | i < n && Fails(box, files[i], t, dryRun, nonces)
  }

  ghost function AlreadyCarried(box: Box, files: seq<File>, n: nat, t: Table): set<nat>
    requires n <= |files|
  {
    set i: nat | i < n && Carried(box, t, files[i])
  }

  lemma FailingPush(box: Box, files: seq<File>, n: nat, t: Table, dryRun: bool, nonces: string -> nat)
    requires n < |files|
    ensures |Failing(box, files, n + 1, t, dryRun, nonces)|
            == |Failing(box, files, n, t, dryRun, nonces)| + if Fails(box, files[n], t, dryRun, nonces) then 1 else 0
  {
    hide Fails;
    var now, next := Failing(box, files, n, t, dryRun, nonces), Failing(box, files, n + 1, t, dryRun, nonces);
    if Fails(box, files[n], t, dryRun, nonces) {
      assert next == now + {n};
    } else {
      assert next == now;
    }
  }

  lemma CarriedPush(box: Box, files: seq<File>, n: nat, t: Table)
    requires n < |files|
    ensures |AlreadyCarried(box, files, n + 1, t)|
            == |AlreadyCarried(box, files, n, t)| + if Carried(box, t, files[n]) then 1 else 0
  {
    hide Carried;
    var now, next := AlreadyCarried(box, files, n, t), AlreadyCarried(box, files, n + 1, t);
    if Carried(box, t, files[n]) {
      assert next == now + {n};
    } else {
      assert next == now;
    }
  }

  ghost predicate SameRow(a: string, t: Table, t': Table) { (a in t' <==> a in t) && (a in t ==> t'[a] == t[a]) }

  /** What the loop makes of file f: nothing in a dry run, for a failing or a carried file;
      else a sealed row that opens to its blob. */
  ghost predicate Converted(box: Box, f: File, t: Table, t': Table, dryRun: bool, nonces: string -> nat) {
    if dryRun || Fails(box, f, t, dryRun, nonces) || Carried(box, t, f) then SameRow(f.alias, t, t')
    else Carried(box, t', f) && IsSealed(t'[f.alias])
  }

  /** The first n files are dealt with. */
  ghost predicate DealtWith(box: Box, files: seq<File>, n: nat, table: Table, t: Table, dryRun: bool,
                            nonces: string -> nat, byFile: set<string>)
    requires n <= |files|
  {
    && SameElsewhere(Names(files, n), table, t) && byFile <= Names(files, n)
    && (forall k | 0 <= k < n :: Converted(box, files[k], table, t, dryRun, nonces))
    && (forall k | 0 <= k < n :: files[k].alias in byFile <==> files[k].blob.Some?)
  }

  lemma DealtWithNone(box: Box, files: seq<File>, table: Table, dryRun: bool, nonces: string -> nat)
    ensures DealtWith(box, files, 0, table, table, dryRun, nonces, {})
    ensures Failing(box, files, 0, table, dryRun, nonces) == {} && AlreadyCarried(box, files, 0, table) == {}
  {}

  lemma RowUntouched(box: Box, files: seq<File>, n: nat, table: Table, t: Table, dryRun: bool, nonces: string -> nat,
                     byFile: set<string>)
    requires n < |files| && DistinctAliases(files) && DealtWith(box, files, n, table, t, dryRun, nonces, byFile)
    ensures SameRow(files[n].alias, table, t)
  {
    NamesStep(files, n);
  }

  lemma DealtWithStep(box: Box, files: seq<File>, n: nat, table: Table, t: Table, t': Table, dryRun: bool,
                      nonces: string -> nat, byFile: set<string>)
    requires n < |files| && DistinctAliases(files) && DealtWith(box, files, n, table, t, dryRun, nonces, byFile)
    requires (forall a | a != files[n].alias :: SameRow(a, t, t'))
    requires Converted(box, files[n], table, t', dryRun, nonces)
    ensures DealtWith(box, files, n + 1, table, t', dryRun, nonces,
                      if files[n].blob.Some? then byFile + {files[n].alias} else byFile)
  {
    hide Converted;
    NamesStep(files, n);
    var names := Names(files, n);
    assert forall k | 0 <= k < n :: files[k].alias in names && files[k].alias != files[n].alias;
    hide Names;
    forall k | 0 <= k < n ensures Converted(box, files[k], table, t', dryRun, nonces) {
      ConvertedStays(box, files[k], table, t, t', dryRun, nonces);
    }
    forall a | a !in names && a != files[n].alias ensures SameRow(a, table, t') {
      assert SameRow(a, t, t');
    }
  }

  /** The conversion loop. `nonces` is the randomness of each file's seal. */
  method Convert(box: Box, files: seq<File>, table: Table, dryRun: bool, nonces: string -> nat)
    returns (t: Table, rep: Report, byFile: set<string>)
    requires box.Sound() && DistinctAliases(files)
    ensures rep.reencrypted == 0 && rep.needsNewLogin == 0
    ensures rep.errors == |Failing(box, files, |files|, table, dryRun, nonces)|
    ensures rep.skipped == |AlreadyCarried(box, files, |files|, table)|
    ensures rep.migrated + rep.skipped + rep.errors == |files|
    ensures DealtWith(box, files, |files|, table, t, dryRun, nonces, byFile)
  {
    hide DealtWith;
    hide Converted;
    hide Fails;
    hide Carried;
    hide Unreadable;
    hide Failing;
    hide AlreadyCarried;
    hide SameRow;
    t, byFile := table, {};
    var migrated, skipped, errors := 0, 0, 0;
    DealtWithNone(box, files, table, dryRun, nonces);
    for i := 0 to |files|
      invariant migrated + skipped + errors == i
      invariant errors == |Failing(box, files, i, table, dryRun, nonces)|
      invariant skipped == |AlreadyCarried(box, files, i, table)|
      invariant DealtWith(box, files, i, table, t, dryRun, nonces, byFile)
    {
      FailingPush(box, files, i, table, dryRun, nonces);
      CarriedPush(box, files, i, table);
      RowUntouched(box, files, i, table, t, dryRun, nonces, byFile);
      if files[i].blob.None? {
        NoBlobFails(box, files[i], table, t, dryRun, nonces);
        SameRows(t);
        DealtWithStep(box, files, i, table, t, t, dryRun, nonces, byFile);
        errors := errors + 1;
      } else {
        var t', outcome := ConvertOne(box, files[i], t, dryRun, nonces(files[i].alias));
        OneConverted(box, files[i], table, t, t', dryRun, nonces, outcome);
        DealtWithStep(box, files, i, table, t, t', dryRun, nonces, byFile);
        byFile := byFile + {files[i].alias};
        t := t';
        match outcome {
          case Errored => errors := errors + 1;
          case Unchanged => skipped := skipped + 1;
          case Written => migrated := migrated + 1;
        }
      }
    }
    rep := Report(migrated, skipped, 0, errors, 0);
  }

  lemma SameRows(t: Table)
    ensures forall a :: SameRow(a, t, t)
  {}

  lemma NoBlobFails(box: Box, f: File, table: Table, t: Table, dryRun: bool, nonces: string -> nat)
    requires f.blob.None? && SameRow(f.alias, table, t)
    ensures Fails(box, f, table, dryRun, nonces) && !Carried(box, table, f)
    ensures Converted(box, f, table, t, dryRun, nonces)
  {}

  lemma ConvertedStays(box: Box, f: File, table: Table, t: Table, t': Table, dryRun: bool, nonces: string -> nat)
    requires Converted(box, f, table, t, dryRun, nonces) && SameRow(f.alias, t, t')
    ensures Converted(box, f, table, t', dryRun, nonces)
  {}

  lemma OneConverted(box: Box, f: File, table: Table, t: Table, t': Table, dryRun: bool, nonces: string -> nat,
                     outcome: Outcome)
    requires f.blob.Some? && SameRow(f.alias, table, t)
    requires outcome == Errored <==> FailsHere(box, f, t, dryRun, nonces(f.alias))
    requires outcome == Unchanged <==> Carried(box, t, f)
    requires outcome != Written || dryRun ==> t' == t
    requires outcome == Written && !dryRun ==> Carried(box, t', f) && IsSealed(t'[f.alias])
    ensures outcome == Errored <==> Fails(box, f, table, dryRun, nonces)
    ensures outcome == Unchanged <==> Carried(box, table, f)
    ensures Converted(box, f, table, t', dryRun, nonces)
  {}

  datatype Outcome = Errored | Unchanged | Written

  method ConvertOne(box: Box, f: File, t: Table, dryRun: bool, nonce: nat) returns (t': Table, outcome: Outcome)
    requires box.Sound() && f.blob.Some?
    ensures forall a | a != f.alias :: SameRow(a, t, t')
    ensures outcome == Errored <==> FailsHere(box, f, t, dryRun, nonce)
    ensures outcome == Unchanged <==> Carried(box, t, f)
    ensures outcome != Written || dryRun ==> t' == t
    ensures outcome == Written && !dryRun ==> Carried(box, t', f) && IsSealed(t'[f.alias])
  {
    if f.alias in t {
      var plain := OpenBlob(box, t[f.alias]);
      if plain.None? {
        return t, Errored;
      }
      if plain.value == f.blob.value {
        return t, Unchanged;
      }
    }
    if dryRun {
      return t, Written;
    }
    var sealed := SealBlob(box, f.blob.value, nonce);
    if sealed.None? {
      return t, Errored;
    }
    SealRoundTrip(box, f.blob.value, nonce);
    return t[f.alias := sealed.value], Written;
  }

  // ---- Re-sealing ----

  function Legacy(t: Table): set<string> { set a | a in t && !IsSealed(t[a]) }

  /** The legacy rows that cannot be sealed. `again` is the randomness of each re-seal. */
  function Unsealable(box: Box, t: Table, again: string -> nat): set<string> {
    set a | a in Legacy(t) && SealFails(box, t[a], again(a))
  }

  /** What the loop makes of a legacy row. */
  ghost predicate Resealed(box: Box, a: string, t: Table, t': Table, again: string -> nat) {
    && a in t && a in t'
    && if SealFails(box, t[a], again(a)) then t'[a] == t[a] else IsSealed(t'[a]) && OpenBlob(box, t'[a]) == Some(t[a])
  }

  /** All legacy rows but those in `left` are dealt with. */
  ghost predicate ResealedBut(box: Box, left: set<string>, t: Table, t': Table, again: string -> nat) {
    && t'.Keys == t.Keys && left <= Legacy(t)
    && (forall a | a in t && (a !in Legacy(t) || a in left) :: t'[a] == t[a])
    && (forall a | a in Legacy(t) && a !in left :: Resealed(box, a, t, t', again))
  }

  function UnsealableBut(box: Box, left: set<string>, t: Table, again: string -> nat): set<string> {
    Unsealable(box, t, again) - left
  }

  lemma ResealStep(box: Box, left: set<string>, t: Table, t': Table, again: string -> nat, a: string)
    requires box.Sound() && a in left && ResealedBut(box, left, t, t', again)
    ensures a in t' && t'[a] == t[a]
    ensures var sealed := SealBlob(box, t[a], again(a));
            && (sealed.None? <==> SealFails(box, t[a], again(a)))
            && ResealedBut(box, left - {a}, t, if sealed.None? then t' else t'[a := sealed.value], again)
    ensures |UnsealableBut(box, left - {a}, t, again)|
            == |UnsealableBut(box, left, t, again)| + if SealFails(box, t[a], again(a)) then 1 else 0
  {
    hide SealBlob;
    hide OpenBlob;
    hide IsSealed;
    SealOutcome(box, t[a], again(a));
    var bad := UnsealableBut(box, left, t, again);
    if SealFails(box, t[a], again(a)) {
      assert UnsealableBut(box, left - {a}, t, again) == bad + {a};
    } else {
      assert UnsealableBut(box, left - {a}, t, again) == bad;
    }
  }

  lemma ResealEnds(box: Box, t: Table, again: string -> nat)
    ensures ResealedBut(box, Legacy(t), t, t, again) && UnsealableBut(box, Legacy(t), t, again) == {}
    ensures UnsealableBut(box, {}, t, again) == Unsealable(box, t, again)
  {}

  /** The re-seal loop over the legacy plaintext rows. */
  method Reseal(box: Box, t: Table, dryRun: bool, again: string -> nat)
    returns (t': Table, reencrypted: nat, errors: nat)
    requires box.Sound()
    ensures if dryRun then t' == t else ResealedBut(box, {}, t, t', again)
    ensures errors == if dryRun then 0 else |Unsealable(box, t, again)|
    ensures reencrypted + errors == |Legacy(t)|
  {
    hide ResealedBut;
    hide UnsealableBut;
    hide Unsealable;
    hide SealBlob;
    t', reencrypted, errors := t, 0, 0;
    var legacy := Legacy(t);
    ResealEnds(box, t, again);
    while legacy != {}
      invariant if dryRun then t' == t else ResealedBut(box, legacy, t, t', again)
      invariant errors == if dryRun then 0 else |UnsealableBut(box, legacy, t, again)|
      invariant reencrypted + errors + |legacy| == |Legacy(t)|
      decreases |legacy|
    {
      NonEmpty(legacy);
      var a :| a in legacy;
      if dryRun {
        reencrypted := reencrypted + 1;
      } else {
        ResealStep(box, legacy, t, t', again, a);
        var sealed := SealBlob(box, t'[a], again(a));
        if sealed.None? {
          errors := errors + 1;
        } else {
          t' := t'[a := sealed.value];
          reencrypted := reencrypted + 1;
        }
      }
      legacy := legacy - {a};
    }
  }

  lemma SealOutcome(box: Box, plain: Blob, nonce: nat)
    requires box.Sound()
    ensures SealBlob(box, plain, nonce).None? <==> SealFails(box, plain, nonce)
    ensures SealBlob(box, plain, nonce).Some? ==>
              var b := SealBlob(box, plain, nonce).value; IsSealed(b) && OpenBlob(box, b) == Some(plain)
  {
    if SealBlob(box, plain, nonce).Some? { SealRoundTrip(box, plain, nonce); }
  }

  lemma NonEmpty(s: set<string>)
    ensures s == {} || exists x :: x in s
  {
    if forall x :: x !in s { assert s == {}; }
  }

  /** The login gate; `registered` is None when the sessions table cannot be read. */
  method CountNewLogins(registered: Option<seq<string>>, byFile: set<string>) returns (n: nat)
    ensures n == 0 <==> registered.None? || forall i | 0 <= i < |registered.value| :: registered.value[i] in byFile
  {
    n := 0;
    if registered.None? {
      return;
    }
    for i := 0 to |registered.value|
      invariant n == 0 <==> forall k | 0 <= k < i :: registered.value[k] in byFile
    {
      if registered.value[i] !in byFile {
        n := n + 1;
      }
    }
  }

  /** No file rewrites the row of alias a. */
  ghost predicate LeftAsIs(box: Box, files: seq<File>, table: Table, a: string) {
    forall i | 0 <= i < |files| && files[i].alias == a :: Carried(box, table, files[i])
  }

  ghost predicate HasFile(files: seq<File>, a: string) {
    exists i :: 0 <= i < |files| && files[i].alias == a && files[i].blob.Some?
  }

  /** Nothing stands in the way of a cutover: no file fails, a real run can seal every
      legacy row that stays, and every registered alias has a file with a blob. */
  ghost predicate AllClear(box: Box, files: seq<File>, registered: Option<seq<string>>, table: Table, dryRun: bool,
                           nonces: string -> nat, again: string -> nat) {
    && (forall i | 0 <= i < |files| :: !Fails(box, files[i], table, dryRun, nonces))
    && (!dryRun ==> forall a | a in table && !IsSealed(table[a]) && LeftAsIs(box, files, table, a) ::
                      !SealFails(box, table[a], again(a)))
    && (registered.Some? ==> forall j | 0 <= j < |registered.value| :: HasFile(files, registered.value[j]))
  }

  lemma NoneFailing(box: Box, files: seq<File>, table: Table, dryRun: bool, nonces: string -> nat)
    ensures |Failing(box, files, |files|, table, dryRun, nonces)| == 0
            <==> forall i | 0 <= i < |files| :: !Fails(box, files[i], table, dryRun, nonces)
  {
    hide Fails;
    var bad := Failing(box, files, |files|, table, dryRun, nonces);
    if i :| 0 <= i < |files| && Fails(box, files[i], table, dryRun, nonces) {
      assert i in bad;
    } else {
      assert bad == {};
    }
  }

  lemma ByFileIs(files: seq<File>, byFile: set<string>, a: string)
    requires byFile <= Names(files, |files|) && DistinctAliases(files)
    requires forall i | 0 <= i < |files| :: files[i].alias in byFile <==> files[i].blob.Some?
    ensures a in byFile <==> HasFile(files, a)
  {
    if a in byFile {
      var i :| 0 <= i < |files| && files[i].alias == a;
    }
  }

  /** Without failing files, the legacy rows left by a real conversion are those of the table
      that no file rewrites. */
  lemma LegacyLeft(box: Box, files: seq<File>, table: Table, t: Table, nonces: string -> nat, byFile: set<string>,
                   a: string)
    requires DealtWith(box, files, |files|, table, t, false, nonces, byFile)
    requires forall i | 0 <= i < |files| :: !Fails(box, files[i], table, false, nonces)
    ensures a in Legacy(t) <==> a in table && !IsSealed(table[a]) && LeftAsIs(box, files, table, a)
    ensures a in Legacy(t) ==> t[a] == table[a]
  {
    hide Fails;
    hide IsSealed;
    if i :| 0 <= i < |files| && files[i].alias == a {
      assert Converted(box, files[i], table, t, false, nonces);
      if !Carried(box, table, files[i]) {
        assert !LeftAsIs(box, files, table, a);
      } else if DistinctAliases(files) {
        assert SameRow(a, table, t);
      }
    } else {
      assert a !in Names(files, |files|);
    }
  }

  lemma UnsealableNone(box: Box, files: seq<File>, table: Table, t: Table, nonces: string -> nat, byFile: set<string>,
                       again: string -> nat)
    requires DealtWith(box, files, |files|, table, t, false, nonces, byFile) && DistinctAliases(files)
    requires forall i | 0 <= i < |files| :: !Fails(box, files[i], table, false, nonces)
    ensures |Unsealable(box, t, again)| == 0
            <==> forall a | a in table && !IsSealed(table[a]) && LeftAsIs(box, files, table, a) ::
                   !SealFails(box, table[a], again(a))
  {
    hide DealtWith;
    hide Fails;
    hide IsSealed;
    hide LeftAsIs;
    hide SealFails;
    forall a ensures (a in Legacy(t) <==> a in table && !IsSealed(table[a]) && LeftAsIs(box, files, table, a))
                  && (a in Legacy(t) ==> t[a] == table[a])
    {
      LegacyLeft(box, files, table, t, nonces, byFile, a);
    }
    hide Legacy;
    var bad := Unsealable(box, t, again);
    if a :| a in table && !IsSealed(table[a]) && LeftAsIs(box, files, table, a) && SealFails(box, table[a], again(a)) {
      assert a in bad;
    } else {
      assert bad == {};
    }
  }

  lemma ClearIff(box: Box, files: seq<File>, registered: Option<seq<string>>, table: Table, t: Table, dryRun: bool,
                 nonces: string -> nat, again: string -> nat, byFile: set<string>)
    requires DistinctAliases(files) && DealtWith(box, files, |files|, table, t, dryRun, nonces, byFile)
    ensures AllClear(box, files, registered, table, dryRun, nonces, again)
            <==> && |Failing(box, files, |files|, table, dryRun, nonces)| == 0
                 && (dryRun || |Unsealable(box, t, again)| == 0)
                 && (registered.None? || forall i | 0 <= i < |registered.value| :: registered.value[i] in byFile)
  {
    NoneFailing(box, files, table, dryRun, nonces);
    if !dryRun && |Failing(box, files, |files|, table, dryRun, nonces)| == 0 {
      UnsealableNone(box, files, table, t, nonces, byFile, again);
    }
    forall a ensures a in byFile <==> HasFile(files, a) { ByFileIs(files, byFile, a); }
    hide DealtWith;
    hide Fails;
    hide Failing;
    hide Unsealable;
    hide IsSealed;
    hide LeftAsIs;
    hide HasFile;
    hide SealFails;
  }

  /** What a clean real run leaves behind. */
  lemma CleanSettles(box: Box, files: seq<File>, table: Table, t: Table, t': Table, nonces: string -> nat,
                     again: string -> nat, byFile: set<string>)
    requires DealtWith(box, files, |files|, table, t, false, nonces, byFile) && ResealedBut(box, {}, t, t', again)
    requires |Failing(box, files, |files|, table, false, nonces)| == 0 && |Unsealable(box, t, again)| == 0
    ensures Settled(box, files, t')
  {
    NoneFailing(box, files, table, false, nonces);
    assert Unsealable(box, t, again) == {};
    forall a | a in t' ensures IsSealed(t'[a]) && OpenBlob(box, t'[a]) == OpenBlob(box, t[a]) {
      RowAfter(box, t, t', again, a);
      assert a in Legacy(t) ==> a !in Unsealable(box, t, again);
    }
    hide OpenBlob;
    hide IsSealed;
    hide Fails;
    forall k | 0 <= k < |files| ensures Carried(box, t', files[k]) {
      assert Converted(box, files[k], table, t, false, nonces);
    }
  }

  lemma RowAfter(box: Box, t: Table, t': Table, again: string -> nat, a: string)
    requires ResealedBut(box, {}, t, t', again) && a in t
    ensures a in t' && OpenBlob(box, t'[a]) == OpenBlob(box, t[a])
    ensures a in Legacy(t) && !SealFails(box, t[a], again(a)) ==> IsSealed(t'[a])
    ensures a !in Legacy(t) ==> t'[a] == t[a] && IsSealed(t'[a])
  {
    if a in Legacy(t) {
      assert Resealed(box, a, t, t', again);
    }
  }

  /** On a settled table nothing is done. */
  lemma SettledStays(box: Box, files: seq<File>, table: Table, t: Table, dryRun: bool, nonces: string -> nat,
                     byFile: set<string>)
    requires Settled(box, files, table) && DealtWith(box, files, |files|, table, t, dryRun, nonces, byFile)
    ensures t == table && Legacy(t) == {}
    ensures |Failing(box, files, |files|, table, dryRun, nonces)| == 0
    ensures |AlreadyCarried(box, files, |files|, table)| == |files|
  {
    forall k | 0 <= k < |files|
      ensures !Fails(box, files[k], table, dryRun, nonces) && SameRow(files[k].alias, table, t)
    {
      assert Carried(box, table, files[k]) && Converted(box, files[k], table, t, dryRun, nonces);
    }
    NoneFailing(box, files, table, dryRun, nonces);
    hide Fails;
    hide Failing;
    forall a ensures SameRow(a, table, t) {
      if a in Names(files, |files|) {
        var k :| 0 <= k < |files| && files[k].alias == a;
      }
    }
    assert t.Keys == table.Keys;
    CarriedCount(box, files, |files|, table);
  }

  lemma {:induction false} CarriedCount(box: Box, files: seq<File>, n: nat, t: Table)
    requires n <= |files| && forall k | 0 <= k < n :: Carried(box, t, files[k])
    ensures |AlreadyCarried(box, files, n, t)| == n
  {
    if n == 0 {
      assert AlreadyCarried(box, files, 0, t) == {};
    } else {
      CarriedCount(box, files, n - 1, t);
      CarriedPush(box, files, n - 1, t);
    }
  }

  /** Run. It reports no logins required exactly when nothing stands in the way. Then, in a
      real run, every file's alias has a sealed row that opens to its blob and every row is
      sealed; rows without a file open to the same bytes as before in any run; and on a
      table a clean run left behind, a run migrates and changes nothing. */
  method Run(box: Box, files: seq<File>, registered: Option<seq<string>>, table: Table, dryRun: bool,
             nonces: string -> nat, again: string -> nat)
    returns (t: Table, rep: Report)
    requires box.Sound() && DistinctAliases(files)
    ensures dryRun ==> t == table
    ensures forall a | a !in Names(files, |files|) ::
              (a in t <==> a in table) && (a in table ==> OpenBlob(box, t[a]) == OpenBlob(box, table[a]))
    ensures rep.LoginsRequired() == 0 <==> AllClear(box, files, registered, table, dryRun, nonces, again)
    ensures !dryRun && rep.LoginsRequired() == 0 ==> Settled(box, files, t)
    ensures rep.migrated == |files| - |Failing(box, files, |files|, table, dryRun, nonces)|
                            - |AlreadyCarried(box, files, |files|, table)|
    ensures rep.skipped == |AlreadyCarried(box, files, |files|, table)|
    ensures Settled(box, files, table) ==>
              t == table && rep.migrated == 0 && rep.reencrypted == 0 && rep.errors == 0 && rep.skipped == |files|
  {
    hide AllClear;
    hide Settled;
    hide DealtWith;
    hide ResealedBut;
    hide Failing;
    hide AlreadyCarried;
    hide Unsealable;
    hide OpenBlob;
    var t1, rep1, byFile := Convert(box, files, table, dryRun, nonces);
    var t2, reencrypted, errors := Reseal(box, t1, dryRun, again);
    var logins := CountNewLogins(registered, byFile);
    t := t2;
    rep := rep1.(reencrypted := reencrypted, errors := rep1.errors + errors, needsNewLogin := logins);
    ClearIff(box, files, registered, table, t1, dryRun, nonces, again, byFile);
    if Settled(box, files, table) {
      SettledStays(box, files, table, t1, dryRun, nonces, byFile);
      NothingResealed(box, t1, t2, again);
    }
    if !dryRun && rep.LoginsRequired() == 0 {
      CleanSettles(box, files, table, t1, t2, nonces, again, byFile);
    }
    RowsKeepMeaning(box, files, table, t1, t2, dryRun, nonces, again, byFile);
  }

  lemma NothingResealed(box: Box, t: Table, t': Table, again: string -> nat)
    requires Legacy(t) == {}
    ensures Unsealable(box, t, again) == {} && (ResealedBut(box, {}, t, t', again) ==> t' == t)
  {}

  lemma RowsKeepMeaning(box: Box, files: seq<File>, table: Table, t: Table, t': Table, dryRun: bool,
                        nonces: string -> nat, again: string -> nat, byFile: set<string>)
    requires DealtWith(box, files, |files|, table, t, dryRun, nonces, byFile)
    requires if dryRun then t' == t else ResealedBut(box, {}, t, t', again)
    ensures dryRun ==> t' == table
    ensures forall a | a !in Names(files, |files|) ::
              (a in t' <==> a in table) && (a in table ==> OpenBlob(box, t'[a]) == OpenBlob(box, table[a]))
  {
    if dryRun {
      forall a ensures SameRow(a, table, t) {
        if a in Names(files, |files|) {
          var k :| 0 <= k < |files| && files[k].alias == a;
          assert Converted(box, files[k], table, t, dryRun, nonces);
        }
      }
      assert t.Keys == table.Keys;
    } else {
      forall a | a in t ensures OpenBlob(box, t'[a]) == OpenBlob(box, t[a]) { RowAfter(box, t, t', again, a); }
    }
  }

  /** What a clean run means for one registered alias. */
  lemma RegisteredIsReady(box: Box, files: seq<File>, t: Table, alias: string)
    requires Settled(box, files, t) && alias in Names(files, |files|)
    ensures alias in t && IsSealed(t[alias])
    ensures exists k :: 0 <= k < |files| && files[k].alias == alias && OpenBlob(box, t[alias]) == files[k].blob
  {
    var k :| 0 <= k < |files| && files[k].alias == alias;
    assert Carried(box, t, files[k]);
  }
}
