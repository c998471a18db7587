/** Encrypted names and paths: `create_encrypted_paths` (support/src/utils/encrypting_reader.cpp) and the
    decryption with a master key (support/src/utils/encryption.cpp). */
module EncryptedPaths {
  import opened Bytes
  import opened EncryptedFormat
  import opened KdfHeader
  import ApiPath
  import Base64

  /** The cipher, the hash and the key derivation, which both sides share. */
  datatype Crypto = Crypto(aead: Aead, hash: Hash, derive: Derive)

  // ---- text and bytes ----

  /** A `std::string` holds bytes. */
  predicate IsByteText(s: string) {
    forall c :: c in s ==> c as int < 256
  }

  function ToBytes(s: string): (r: seq<byte>)
    ensures |r| == |s|
  {
    seq(|s|, i requires 0 <= i < |s| => s[i] as int % 256)
  }

  function ToText(b: seq<byte>): (r: string)
    ensures |r| == |b|
  {
    seq(|b|, i requires 0 <= i < |b| => b[i] as char)
  }

  lemma TextBack(s: string)
    requires IsByteText(s)
    ensures ToText(ToBytes(s)) == s
  {
    assert forall i :: 0 <= i < |s| ==> s[i] in s;
  }

  /** `split` with a string delimiter keeps empty pieces, also in front and at the end; nothing has no pieces. */
  function PiecesFrom(current: string, s: string): seq<string>
    decreases |s|
  {
    if s == "" then [current]
    else if s[0] == '/' then [current] + PiecesFrom("", s[1..])
    else PiecesFrom(current + [s[0]], s[1..])
  }

  function Pieces(s: string): seq<string> {
    if s == "" then [] else PiecesFrom("", s)
  }

  /** `strnlen` stops at the first NUL. */
  function CutAtNul(s: string): (r: string)
    ensures r <= s
  {
    if s == "" || s[0] == '\0' then "" else [s[0]] + CutAtNul(s[1..])
  }

  /** What `strnlen` leaves: everything before the first NUL. */
  lemma {:induction false} CutAtFirstNul(s: string)
    ensures var r := CutAtNul(s); r <= s && '\0' !in r && (r == s || s[|r|] == '\0')
  {
    if s != "" && s[0] != '\0' {
      CutAtFirstNul(s[1..]);
      assert s == [s[0]] + s[1..];
    }
  }

  /** No piece has a slash, and with slashes between them the pieces are the text. */
  lemma {:induction false} PiecesFromIs(current: string, s: string)
    requires '/' !in current
    ensures PiecesFrom(current, s) != [] && ApiPath.Joined(PiecesFrom(current, s)) == current + s
    ensures forall piece :: piece in PiecesFrom(current, s) ==> '/' !in piece
    decreases |s|
  {
    if s == "" {
      assert current + s == current;
    } else if s[0] == '/' {
      PiecesFromIs("", s[1..]);
      var rest := PiecesFrom("", s[1..]);
      assert ([current] + rest)[1..] == rest;
      assert "" + s[1..] == s[1..] && s == "/" + s[1..];
    } else {
      PiecesFromIs(current + [s[0]], s[1..]);
      assert current + [s[0]] + s[1..] == current + s;
    }
  }

  lemma PiecesAre(s: string)
    ensures ApiPath.Joined(Pieces(s)) == s
    ensures forall piece :: piece in Pieces(s) ==> '/' !in piece
    ensures Pieces(s) == [] <==> s == ""
  {
    PiecesFromIs("", s);
    assert "" + s == s;
  }

  // ---- encryption ----

  function EncryptedName(crypto: Crypto, header: seq<byte>, key: Key, iv: seq<byte>, name: string): string {
    Base64.Encoded(header + EncryptData(crypto.aead, iv, key, ToBytes(name)), true, false)
  }

  /** What each name contributes: a slash and the encrypted name. */
  function EncryptedPath(crypto: Crypto, header: seq<byte>, key: Key, ivs: seq<seq<byte>>, names: seq<string>): string
    requires |ivs| == |names|
  {
    if names == [] then ""
    else
      var n := |names| - 1;
      EncryptedPath(crypto, header, key, ivs[..n], names[..n]) + "/" +
      EncryptedName(crypto, header, key, ivs[n], names[n])
  }

  function Map(names: seq<string>, f: string -> string): (r: seq<string>)
    ensures |r| == |names| && forall i :: 0 <= i < |r| ==> r[i] == f(names[i])
  {
    if names == [] then [] else [f(names[0])] + Map(names[1..], f)
  }

  /** The names that are encrypted: the pieces of the parent path as far as the first NUL, then the file name. */
  function NamesOf(fileName: string, parent: Option<string>): (r: seq<string>)
    ensures r != []
  {
    (if parent.None? then [] else Map(Pieces(parent.value), CutAtNul)) + [fileName]
  }

  /** Encrypt one name the way both loops do. */
  method EncryptName(crypto: Crypto, header: seq<byte>, key: Key, iv: seq<byte>, name: string) returns (text: string)
    ensures text == EncryptedName(crypto, header, key, iv, name)
  {
    var result := EncryptData(crypto.aead, iv, key, ToBytes(name));
    result := header + result;
    text := Base64.Encode(result, true, false);
  }

  /** With a key header; `ivs` are the random nonces, the last one for the file name. */
  method CreateEncryptedPaths(crypto: Crypto, header: seq<byte>, key: Key, fileName: string, parent: Option<string>,
                              ivs: seq<seq<byte>>)
    returns (encryptedName: string, encryptedPath: string)
    requires |ivs| == |NamesOf(fileName, parent)|
    ensures encryptedName == EncryptedName(crypto, header, key, ivs[|ivs| - 1], fileName)
    ensures encryptedPath == if parent.None? then ""
                             else EncryptedPath(crypto, header, key, ivs, NamesOf(fileName, parent))
    ensures CanSeal(crypto.aead, header, ivs, NamesOf(fileName, parent)) ==>
              && IsEncryptedName(crypto.aead, header, key, ivs[|ivs| - 1], fileName, encryptedName)
              && (parent.Some? ==> AreEncryptedNames(crypto.aead, header, key, ivs, NamesOf(fileName, parent),
                                                     ApiPath.Segments(encryptedPath)))
  {
    hide EncryptedName, EncryptedPath, Pieces, CutAtNul, IsEncryptedName, AreEncryptedNames, IsByteText,
         ApiPath.Segments;
    ghost var names := NamesOf(fileName, parent);
    if CanSeal(crypto.aead, header, ivs, names) {
      PathHoldsNames(crypto, header, key, ivs, names);
      assert names[|names| - 1] == fileName;
      NameBytes(crypto, header, key, ivs[|ivs| - 1], fileName);
    }
    encryptedPath := "";
    encryptedName := EncryptName(crypto, header, key, ivs[|ivs| - 1], fileName);
    if parent.None? {
      return;
    }
    var parts := Pieces(parent.value);
    PathBegins(crypto, header, key, ivs, names);
    for i := 0 to |parts|
      invariant encryptedPath == EncryptedPath(crypto, header, key, ivs[..i], names[..i])
    {
      var text := EncryptName(crypto, header, key, ivs[i], CutAtNul(parts[i]));
      PathGrows(crypto, header, key, ivs, names, i);
      encryptedPath := encryptedPath + "/" + text;
    }
    PathGrows(crypto, header, key, ivs, names, |parts|);
    assert names[..|names|] == names && ivs[..|ivs|] == ivs;
    encryptedPath := encryptedPath + "/" + encryptedName;
  }

  lemma PathBegins(crypto: Crypto, header: seq<byte>, key: Key, ivs: seq<seq<byte>>, names: seq<string>)
    requires |names| == |ivs|
    ensures EncryptedPath(crypto, header, key, ivs[..0], names[..0]) == ""
  {
  }

  lemma PathGrows(crypto: Crypto, header: seq<byte>, key: Key, ivs: seq<seq<byte>>, names: seq<string>, i: nat)
    requires i < |names| == |ivs|
    ensures EncryptedPath(crypto, header, key, ivs[..i + 1], names[..i + 1]) ==
            EncryptedPath(crypto, header, key, ivs[..i], names[..i]) + "/" +
            EncryptedName(crypto, header, key, ivs[i], names[i])
  {
    hide EncryptedName;
    assert ivs[..i + 1][..i] == ivs[..i] && names[..i + 1][..i] == names[..i];
  }

  // ---- decryption ----

  function DecryptedName(crypto: Crypto, master: seq<byte>, text: string): Option<string> {
    var buffer := Base64.Decoded(text);
    if buffer.Err? || !Accepts(crypto.hash, buffer.value, false) then None
    else
      var key := RecreateSubkey(crypto.derive, Parsed(buffer.value), KdfHeader.Path, master);
      var plain := DecryptData(crypto.aead, key, buffer.value[SIZE..]);
      if plain.None? then None else Some(ToText(plain.value))
  }

  method DecryptFileName(crypto: Crypto, master: seq<byte>, text: string) returns (name: Option<string>)
    ensures name == DecryptedName(crypto, master, text)
  {
    var buffer := Base64.Decode(text);
    if buffer.Err? {
      return None;
    }
    var ok, cfg := FromHeader(crypto.hash, buffer.value, KdfConfig(0, 0, 2, 1, 0, Zeros(16), 0), false);
    if !ok {
      return None;
    }
    var plain := DecryptData(crypto.aead, RecreateSubkey(crypto.derive, cfg, KdfHeader.Path, master),
                             buffer.value[SIZE..]);
    return if plain.None? then None else Some(ToText(plain.value));
  }

  /** The elements of a file system path after the root: its pieces, and an empty one for a slash at the end. */
  function PathElements(path: string): seq<string> {
    var segments := ApiPath.Segments(path);
    if segments != [] && path[|path| - 1] == '/' then segments + [""] else segments
  }

  /** All names, or nothing as soon as one does not decrypt. */
  function DecryptedNames(crypto: Crypto, master: seq<byte>, parts: seq<string>): Option<seq<string>> {
    if parts == [] then Some([])
    else
      var front := DecryptedNames(crypto, master, parts[..|parts| - 1]);
      var name := DecryptedName(crypto, master, parts[|parts| - 1]);
      if front.None? || name.None? then None else Some(front.value + [name.value])
  }

  lemma {:induction false} OneFailureIsEnough(crypto: Crypto, master: seq<byte>, parts: seq<string>, i: nat)
    requires i < |parts| && DecryptedName(crypto, master, parts[i]).None?
    ensures DecryptedNames(crypto, master, parts).None?
  {
    if i < |parts| - 1 {
      OneFailureIsEnough(crypto, master, parts[..|parts| - 1], i);
    }
  }

  /** A path that does not decrypt stays as it was. */
  method DecryptFilePath(crypto: Crypto, master: seq<byte>, path: string) returns (ok: bool, decrypted: string)
    ensures var names := DecryptedNames(crypto, master, PathElements(path));
            && ok == names.Some?
            && decrypted == if ok then ApiPath.Normalized(ApiPath.Joined(names.value)) else path
  {
    hide DecryptedName, PathElements, ApiPath.Normalized;
    var parts := PathElements(path);
    var names: seq<string> := [];
    for i := 0 to |parts|
      invariant DecryptedNames(crypto, master, parts[..i]) == Some(names)
    {
      var name := DecryptFileName(crypto, master, parts[i]);
      if name.None? {
        OneFailureIsEnough(crypto, master, parts, i);
        return false, path;
      }
      assert parts[..i + 1][..i] == parts[..i];
      names := names + [name.value];
    }
    assert parts[..|parts|] == parts;
    ok := true;
    decrypted := ApiPath.CreateApiPath(ApiPath.Joined(names));
  }

  lemma {:induction false} AllDecrypt(crypto: Crypto, master: seq<byte>, parts: seq<string>)
    ensures DecryptedNames(crypto, master, parts).Some? <==>
            forall i :: 0 <= i < |parts| ==> DecryptedName(crypto, master, parts[i]).Some?
  {
    hide DecryptedName;
    if parts != [] {
      AllDecrypt(crypto, master, parts[..|parts| - 1]);
    }
  }

  lemma EmptyNameFails(crypto: Crypto, master: seq<byte>)
    ensures DecryptedName(crypto, master, "").None?
  {
    assert Base64.Decoded("") == Base64.Ok([]);
  }

  /** A path decrypts exactly if each of its pieces does and it does not end with a slash, unless it has no
      pieces. */
  lemma WhenPathsDecrypt(crypto: Crypto, master: seq<byte>, path: string)
    ensures var pieces := ApiPath.Segments(path);
            DecryptedNames(crypto, master, PathElements(path)).Some? <==>
            (forall i :: 0 <= i < |pieces| ==> DecryptedName(crypto, master, pieces[i]).Some?) &&
            (pieces == [] || path[|path| - 1] != '/')
  {
    hide DecryptedName, DecryptedNames, ApiPath.Segments;
    var pieces := ApiPath.Segments(path);
    AllDecrypt(crypto, master, PathElements(path));
    EmptyNameFails(crypto, master);
    ApiPath.NoSegments(path);
    if pieces != [] && path[|path| - 1] == '/' {
      assert PathElements(path)[|pieces|] == "";
    }
  }

  // ---- round trip ----

  /** One name: exactly the non-empty ones come back. */
  lemma NameRoundTrip(crypto: Crypto, cfg: KdfConfig, master: seq<byte>, iv: seq<byte>, name: string)
    requires crypto.aead.Lawful() && |iv| == crypto.aead.nonceLen && FitsTypes(cfg) && IsByteText(name)
    ensures var key := RecreateSubkey(crypto.derive, cfg, KdfHeader.Path, master);
            var text := EncryptedName(crypto, ToHeader(cfg), key, iv, name);
            DecryptedName(crypto, master, text) ==
            if Accepts(crypto.hash, ToHeader(cfg), false) && name != "" then Some(name) else None
  {
    hide Base64.Encoded, Base64.Decoded, ToHeader, EncryptData, DecryptData, FitsTypes, Accepts, Checksum;
    var key := RecreateSubkey(crypto.derive, cfg, KdfHeader.Path, master);
    var sealed := EncryptData(crypto.aead, iv, key, ToBytes(name));
    Base64.RoundTrip(ToHeader(cfg) + sealed, true, false);
    HeaderInFront(crypto.hash, cfg, sealed);
    DecryptEncrypt(crypto.aead, iv, key, ToBytes(name));
    TextBack(name);
  }

  lemma HeaderInFront(hash: Hash, cfg: KdfConfig, rest: seq<byte>)
    requires FitsTypes(cfg)
    ensures |ToHeader(cfg)| == SIZE && (ToHeader(cfg) + rest)[SIZE..] == rest && Parsed(ToHeader(cfg) + rest) == cfg
    ensures Accepts(hash, ToHeader(cfg) + rest, false) <==> Accepts(hash, ToHeader(cfg), false)
  {
    AcceptsHeader(hash, cfg, rest);
    AcceptsHeader(hash, cfg, []);
    ParsedHeader(cfg, rest);
    assert ToHeader(cfg) + [] == ToHeader(cfg);
  }

  /** An encrypted name is a path piece of its own: not empty, and without a slash. */
  lemma NameIsPiece(crypto: Crypto, header: seq<byte>, key: Key, iv: seq<byte>, name: string)
    requires header != []
    ensures var text := EncryptedName(crypto, header, key, iv, name); text != "" && '/' !in text
  {
    hide Base64.Encoded;
    Base64.UrlSafeText(header + EncryptData(crypto.aead, iv, key, ToBytes(name)));
  }

  function EncryptedNames(crypto: Crypto, header: seq<byte>, key: Key, ivs: seq<seq<byte>>,
                          names: seq<string>): (r: seq<string>)
    requires |ivs| == |names|
    ensures |r| == |names|
  {
    if names == [] then []
    else
      var n := |names| - 1;
      EncryptedNames(crypto, header, key, ivs[..n], names[..n]) + [EncryptedName(crypto, header, key, ivs[n], names[n])]
  }

  /** Walking the encrypted path finds the encrypted names: none of them contains a slash. */
  lemma {:induction false} ElementsOfPath(crypto: Crypto, header: seq<byte>, key: Key, ivs: seq<seq<byte>>,
                                          names: seq<string>)
    requires header != [] && |ivs| == |names|
    ensures var path := EncryptedPath(crypto, header, key, ivs, names);
            && ApiPath.Segments(path) == EncryptedNames(crypto, header, key, ivs, names)
            && (names != [] ==> path != "" && path[|path| - 1] != '/')
  {
    hide EncryptedName;
    if names != [] {
      var n := |names| - 1;
      ElementsOfPath(crypto, header, key, ivs[..n], names[..n]);
      NameIsPiece(crypto, header, key, ivs[n], names[n]);
      ApiPath.SegmentAtEnd("", EncryptedPath(crypto, header, key, ivs[..n], names[..n]),
                           EncryptedName(crypto, header, key, ivs[n], names[n]));
    }
  }

  /** The bytes of a text, one for each character. */
  predicate AreBytesOf(plain: seq<byte>, name: string) {
    |plain| == |name| && forall i :: 0 <= i < |name| ==> plain[i] == name[i] as int
  }

  /** The text is URL-safe Base64 of the header and of the name sealed under this nonce. */
  ghost predicate IsEncryptedName(aead: Aead, header: seq<byte>, key: Key, iv: seq<byte>, name: string, text: string) {
    && Base64.Decoded(text).Ok?
    && var data := Base64.Decoded(text).value;
       && header <= data
       && exists plain :: AreBytesOf(plain, name) && IsSealed(aead, key, iv, plain, data[|header|..])
  }

  ghost predicate CanSeal(aead: Aead, header: seq<byte>, ivs: seq<seq<byte>>, names: seq<string>) {
    && aead.Lawful() && header != []
    && (forall i :: 0 <= i < |ivs| ==> |ivs[i]| == aead.nonceLen)
    && forall i :: 0 <= i < |names| ==> IsByteText(names[i])
  }

  lemma NameBytes(crypto: Crypto, header: seq<byte>, key: Key, iv: seq<byte>, name: string)
    requires crypto.aead.Lawful() && |iv| == crypto.aead.nonceLen && IsByteText(name)
    ensures IsEncryptedName(crypto.aead, header, key, iv, name, EncryptedName(crypto, header, key, iv, name))
  {
    hide Base64.Encoded, Base64.Decoded, EncryptData, IsSealed;
    var sealed := EncryptData(crypto.aead, iv, key, ToBytes(name));
    Base64.RoundTrip(header + sealed, true, false);
    EncryptedIsSealed(crypto.aead, iv, key, ToBytes(name));
    assert (header + sealed)[|header|..] == sealed;
    assert AreBytesOf(ToBytes(name), name) by {
      assert forall i :: 0 <= i < |name| ==> name[i] in name;
    }
  }

  /** Every name of an encrypted path is sealed under the nonce drawn for it. */
  ghost predicate AreEncryptedNames(aead: Aead, header: seq<byte>, key: Key, ivs: seq<seq<byte>>, names: seq<string>,
                                    texts: seq<string>)
  {
    && |texts| == |names| == |ivs|
    && forall i :: 0 <= i < |names| ==> IsEncryptedName(aead, header, key, ivs[i], names[i], texts[i])
  }

  lemma {:induction false} EncryptedNamesAre(crypto: Crypto, header: seq<byte>, key: Key, ivs: seq<seq<byte>>,
                                             names: seq<string>)
    requires CanSeal(crypto.aead, header, ivs, names) && |ivs| == |names|
    ensures AreEncryptedNames(crypto.aead, header, key, ivs, names, EncryptedNames(crypto, header, key, ivs, names))
  {
    hide EncryptedName, IsEncryptedName, IsByteText;
    if names != [] {
      var n := |names| - 1;
      EncryptedNamesAre(crypto, header, key, ivs[..n], names[..n]);
      NameBytes(crypto, header, key, ivs[n], names[n]);
    }
  }

  /** An encrypted path holds, piece by piece, the encrypted names, and nothing else. */
  lemma PathHoldsNames(crypto: Crypto, header: seq<byte>, key: Key, ivs: seq<seq<byte>>, names: seq<string>)
    requires CanSeal(crypto.aead, header, ivs, names) && |ivs| == |names|
    ensures AreEncryptedNames(crypto.aead, header, key, ivs, names,
                              ApiPath.Segments(EncryptedPath(crypto, header, key, ivs, names)))
  {
    hide EncryptedNames, EncryptedPath, AreEncryptedNames, IsByteText, ApiPath.Segments;
    ElementsOfPath(crypto, header, key, ivs, names);
    EncryptedNamesAre(crypto, header, key, ivs, names);
  }

  lemma {:induction false} NamesRoundTrip(crypto: Crypto, cfg: KdfConfig, master: seq<byte>, ivs: seq<seq<byte>>,
                                          names: seq<string>)
    requires crypto.aead.Lawful() && FitsTypes(cfg) && |ivs| == |names|
    requires forall i :: 0 <= i < |ivs| ==> |ivs[i]| == crypto.aead.nonceLen
    requires forall i :: 0 <= i < |names| ==> IsByteText(names[i])
    ensures var key := RecreateSubkey(crypto.derive, cfg, KdfHeader.Path, master);
            var decrypted := DecryptedNames(crypto, master, EncryptedNames(crypto, ToHeader(cfg), key, ivs, names));
            decrypted ==
            if names == [] || (Accepts(crypto.hash, ToHeader(cfg), false) && "" !in names) then Some(names) else None
  {
    hide EncryptedName, DecryptedName, ToHeader, Accepts, FitsTypes, IsByteText, DecryptedNames, EncryptedNames;
    if names == [] {
      NoNames(crypto, master, ToHeader(cfg), RecreateSubkey(crypto.derive, cfg, KdfHeader.Path, master), ivs);
    } else {
      var n := |names| - 1;
      var key := RecreateSubkey(crypto.derive, cfg, KdfHeader.Path, master);
      NamesRoundTrip(crypto, cfg, master, ivs[..n], names[..n]);
      NameRoundTrip(crypto, cfg, master, ivs[n], names[n]);
      LastName(crypto, master, ToHeader(cfg), key, ivs, names);
      EmptyAmong(names);
    }
  }

  lemma NoNames(crypto: Crypto, master: seq<byte>, header: seq<byte>, key: Key, ivs: seq<seq<byte>>)
    requires ivs == []
    ensures DecryptedNames(crypto, master, EncryptedNames(crypto, header, key, ivs, [])) == Some([])
  {
  }

  /** The names before the final one, and the final one. */
  lemma LastName(crypto: Crypto, master: seq<byte>, header: seq<byte>, key: Key, ivs: seq<seq<byte>>,
                 names: seq<string>)
    requires |ivs| == |names| && names != []
    ensures var n := |names| - 1;
            var front := DecryptedNames(crypto, master, EncryptedNames(crypto, header, key, ivs[..n], names[..n]));
            var name := DecryptedName(crypto, master, EncryptedName(crypto, header, key, ivs[n], names[n]));
            DecryptedNames(crypto, master, EncryptedNames(crypto, header, key, ivs, names)) ==
            if front.None? || name.None? then None else Some(front.value + [name.value])
  {
    hide EncryptedName, DecryptedName;
    var n := |names| - 1;
    assert EncryptedNames(crypto, header, key, ivs, names)[..n] ==
           EncryptedNames(crypto, header, key, ivs[..n], names[..n]);
  }

  lemma EmptyAmong(names: seq<string>)
    requires names != []
    ensures names == names[..|names| - 1] + [names[|names| - 1]]
    ensures "" in names <==> "" in names[..|names| - 1] || names[|names| - 1] == ""
  {
  }

  /** An encrypted path decrypts, with the same master key, exactly if no name is empty and the header is
      acceptable, and then to the normal form of the joined names. */
  lemma PathRoundTrip(crypto: Crypto, cfg: KdfConfig, master: seq<byte>, ivs: seq<seq<byte>>, names: seq<string>)
    requires crypto.aead.Lawful() && FitsTypes(cfg) && |ivs| == |names| && names != []
    requires forall i :: 0 <= i < |ivs| ==> |ivs[i]| == crypto.aead.nonceLen
    requires forall i :: 0 <= i < |names| ==> IsByteText(names[i])
    ensures var key := RecreateSubkey(crypto.derive, cfg, KdfHeader.Path, master);
            var path := EncryptedPath(crypto, ToHeader(cfg), key, ivs, names);
            DecryptedNames(crypto, master, PathElements(path)) ==
            if Accepts(crypto.hash, ToHeader(cfg), false) && "" !in names then Some(names) else None
  {
    hide EncryptedPath, EncryptedNames, DecryptedNames, ToHeader, Accepts, FitsTypes, IsByteText, ApiPath.Segments;
    var key := RecreateSubkey(crypto.derive, cfg, KdfHeader.Path, master);
    HeaderInFront(crypto.hash, cfg, []);
    ElementsOfPath(crypto, ToHeader(cfg), key, ivs, names);
    NamesRoundTrip(crypto, cfg, master, ivs, names);
  }

  /** From names to an encrypted path and back, through the two algorithms. */
  method EncryptAndDecryptPath(crypto: Crypto, cfg: KdfConfig, master: seq<byte>, ivs: seq<seq<byte>>, fileName: string,
                               parent: string)
    returns (ok: bool, path: string)
    requires crypto.aead.Lawful() && FitsTypes(cfg) && |ivs| == |NamesOf(fileName, Some(parent))|
    requires forall i :: 0 <= i < |ivs| ==> |ivs[i]| == crypto.aead.nonceLen
    requires forall name :: name in NamesOf(fileName, Some(parent)) ==> IsByteText(name)
    ensures ok <==> Accepts(crypto.hash, ToHeader(cfg), false) && "" !in NamesOf(fileName, Some(parent))
    ensures ok ==> path == ApiPath.Normalized(ApiPath.Joined(NamesOf(fileName, Some(parent))))
    ensures ok && ApiPath.ArePlainNames(NamesOf(fileName, Some(parent))) ==>
              path == "/" + ApiPath.Joined(NamesOf(fileName, Some(parent)))
    ensures IsPlainPath(parent) && IsPlainName(fileName) ==>
              (ok <==> Accepts(crypto.hash, ToHeader(cfg), false)) && (ok ==> path == "/" + parent + "/" + fileName)
    ensures parent == "" && IsPlainName(fileName) && fileName != "." ==>
              (ok <==> Accepts(crypto.hash, ToHeader(cfg), false)) && (ok ==> path == "/" + fileName)
  {
    hide ApiPath.Normalized, ApiPath.Joined, ApiPath.ArePlainNames, NamesOf, IsByteText, FitsTypes, Accepts,
         DecryptedNames, PathElements, EncryptedPath, ToHeader, IsPlainPath, IsPlainName;
    var names := NamesOf(fileName, Some(parent));
    var key := RecreateSubkey(crypto.derive, cfg, KdfHeader.Path, master);
    var _, encrypted := CreateEncryptedPaths(crypto, ToHeader(cfg), key, fileName, Some(parent), ivs);
    PathRoundTrip(crypto, cfg, master, ivs, names);
    ok, path := DecryptFilePath(crypto, master, encrypted);
    if ApiPath.ArePlainNames(names) {
      ApiPath.JoinedNormal(names);
    }
    if IsPlainPath(parent) && IsPlainName(fileName) {
      PlainNames(fileName, parent);
    }
    if parent == "" && IsPlainName(fileName) && fileName != "." {
      PlainNameAlone(fileName);
    }
  }

  lemma PlainNameAlone(fileName: string)
    requires IsPlainName(fileName) && fileName != "."
    ensures NamesOf(fileName, Some("")) == [fileName] && ApiPath.Joined([fileName]) == fileName
    ensures ApiPath.ArePlainNames([fileName]) && "" !in [fileName]
  {
  }

  // ---- plain paths ----

  /** A relative path in normal form without a NUL: nothing in it is changed on the way. */
  predicate IsPlainPath(s: string) {
    && s != "" && s[0] != '/' && s[|s| - 1] != '/' && ApiPath.NoDoubleSlash(s)
    && '\\' !in s && '\0' !in s && s != "." && !("./" <= s)
  }

  predicate IsPlainName(s: string) {
    s != "" && '/' !in s && '\\' !in s
  }

  lemma {:induction false} PiecesFromChars(current: string, s: string)
    ensures forall piece, c :: piece in PiecesFrom(current, s) && c in piece ==> c in current || c in s
    decreases |s|
  {
    if s != "" {
      if s[0] == '/' {
        PiecesFromChars("", s[1..]);
      } else {
        PiecesFromChars(current + [s[0]], s[1..]);
      }
    }
  }

  lemma {:induction false} PiecesFromNonEmpty(current: string, s: string)
    requires ApiPath.NoDoubleSlash(s) && (s == "" || s[|s| - 1] != '/')
    requires current != "" || (s != "" && s[0] != '/')
    ensures "" !in PiecesFrom(current, s)
    decreases |s|
  {
    if s != "" {
      if s[0] == '/' {
        PiecesFromNonEmpty("", s[1..]);
      } else {
        PiecesFromNonEmpty(current + [s[0]], s[1..]);
      }
    }
  }

  lemma {:induction false} CutNothing(s: string)
    requires '\0' !in s
    ensures CutAtNul(s) == s
  {
    CutAtFirstNul(s);
  }

  lemma {:induction false} MapSame(names: seq<string>)
    requires forall name :: name in names ==> '\0' !in name
    ensures Map(names, CutAtNul) == names
  {
    forall i | 0 <= i < |names|
      ensures Map(names, CutAtNul)[i] == names[i]
    {
      CutNothing(names[i]);
    }
  }

  lemma {:induction false} JoinedWithName(names: seq<string>, name: string)
    ensures ApiPath.Joined(names + [name]) == if names == [] then name else ApiPath.Joined(names) + "/" + name
  {
    if names == [] {
      assert names + [name] == [name];
    } else {
      assert (names + [name])[1..] == names[1..] + [name];
      JoinedWithName(names[1..], name);
    }
  }

  lemma {:induction false} FirstPieceFrom(current: string, s: string)
    requires '/' !in current
    ensures PiecesFrom(current, s) != []
    ensures var first := PiecesFrom(current, s)[0];
            first == current + s || first + "/" <= current + s
    decreases |s|
  {
    if s == "" {
      assert current + s == current;
    } else if s[0] == '/' {
      assert current + s == current + "/" + s[1..];
    } else {
      FirstPieceFrom(current + [s[0]], s[1..]);
      assert current + [s[0]] + s[1..] == current + s;
    }
  }

  lemma PlainNames(fileName: string, parent: string)
    requires IsPlainPath(parent) && IsPlainName(fileName)
    ensures NamesOf(fileName, Some(parent)) == Pieces(parent) + [fileName]
    ensures ApiPath.ArePlainNames(NamesOf(fileName, Some(parent))) && "" !in NamesOf(fileName, Some(parent))
    ensures ApiPath.Joined(NamesOf(fileName, Some(parent))) == parent + "/" + fileName
  {
    hide CutAtNul, PiecesFrom, ApiPath.Joined;
    PiecesAre(parent);
    PiecesFromChars("", parent);
    PiecesFromNonEmpty("", parent);
    FirstPieceFrom("", parent);
    assert "" + parent == parent;
    MapSame(Pieces(parent));
    JoinedWithName(Pieces(parent), fileName);
    assert "." + "/" == "./";
  }

  // ---- which paths cannot be decrypted ----

  /** A piece that starts like this is empty after the cut at the first NUL. */
  predicate StartsEmpty(s: string) {
    s == "" || s[0] == '/' || s[0] == '\0'
  }

  predicate EmptyBehindSlash(s: string) {
    exists i :: 0 <= i < |s| && s[i] == '/' && StartsEmpty(s[i + 1..])
  }

  lemma EmptyBehindSlashStep(s: string)
    requires s != ""
    ensures EmptyBehindSlash(s) <==> (s[0] == '/' && StartsEmpty(s[1..])) || EmptyBehindSlash(s[1..])
  {
    if EmptyBehindSlash(s) {
      var i :| 0 <= i < |s| && s[i] == '/' && StartsEmpty(s[i + 1..]);
      if i > 0 {
        assert s[1..][i - 1] == '/' && s[1..][i..] == s[i + 1..];
      }
    }
    if EmptyBehindSlash(s[1..]) {
      var i :| 0 <= i < |s[1..]| && s[1..][i] == '/' && StartsEmpty(s[1..][i + 1..]);
      assert s[i + 1] == '/' && s[1..][i + 1..] == s[i + 2..];
    }
  }

  lemma {:induction false} EmptyPieces(current: string, s: string)
    ensures "" in Map(PiecesFrom(current, s), CutAtNul) <==>
            (if current == "" then StartsEmpty(s) else current[0] == '\0') || EmptyBehindSlash(s)
    decreases |s|
  {
    hide EmptyBehindSlash;
    if s == "" {
      assert !EmptyBehindSlash("") by { NothingBehindSlash(); }
      MapOne(current);
    } else {
      EmptyBehindSlashStep(s);
      if s[0] == '/' {
        EmptyPieces("", s[1..]);
        MapMore(current, PiecesFrom("", s[1..]));
      } else {
        EmptyPieces(current + [s[0]], s[1..]);
      }
    }
  }

  lemma NothingBehindSlash()
    ensures !EmptyBehindSlash("")
  {
  }

  lemma MapOne(name: string)
    ensures "" in Map([name], CutAtNul) <==> name == "" || name[0] == '\0'
  {
    assert Map([name], CutAtNul) == [CutAtNul(name)];
  }

  lemma MapMore(name: string, rest: seq<string>)
    ensures "" in Map([name] + rest, CutAtNul) <==> (name == "" || name[0] == '\0') || "" in Map(rest, CutAtNul)
  {
    assert ([name] + rest)[1..] == rest;
    assert Map([name] + rest, CutAtNul) == [CutAtNul(name)] + Map(rest, CutAtNul);
  }

  /** The names of a file in a parent path are all non-empty exactly if the file name is not empty and the
      parent path has no slash in front, at the end or next to another one, and no piece that starts with NUL. */
  lemma WhenNamesAreEmpty(fileName: string, parent: string)
    ensures "" in NamesOf(fileName, Some(parent)) <==>
            fileName == "" || (parent != "" && (StartsEmpty(parent) || EmptyBehindSlash(parent)))
  {
    hide EmptyBehindSlash, StartsEmpty, CutAtNul;
    if parent != "" {
      EmptyPieces("", parent);
    }
  }
}
