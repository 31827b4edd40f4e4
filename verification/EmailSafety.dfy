/**
 * The safety verdict on a mail (Email/server/safety.js).
 *
 * Results of URL parsing and of the regular expressions on sender and wording are
 * part of the mail; names, extensions and content types are strings. The text of a
 * finding is left as its code and what it is about.
 */
module EmailSafety {
  import opened Common

  datatype Level = Malicious | Suspicious | Info

  datatype Code =
    | MissingSender | InvalidSender | IpSender | PunycodeSender | SpoofedDisplayName | BrandImpersonation
    | ObfuscatedFilename | DangerousAttachment | DangerousAttachmentType | DoubleExtension
    | MalformedUrl | NoHost | DangerousUrlScheme | UserinfoTrick | IpHost | PunycodeHost | ShortenedUrl
    | ExecutableDownload
    | PhishingWording | UrgencyWording

  datatype Finding = Finding(level: Level, code: Code, about: string)

  datatype Attachment = Attachment(filename: string, contentType: string)

  /** A link as parsed; the host is in lower case and without brackets. */
  datatype Link =
    | Malformed
    | Parsed(raw: string, protocol: string, host: string, userinfo: bool, ip: bool, punycode: bool, path: string)

  /** The sender's address, and what the checks on it and on the display name say. */
  datatype Sender = Sender(address: string, valid: bool, ip: bool, punycode: bool, spoofed: bool, brandOnFreemail: bool)

  datatype Scan = ScanMalicious | ScanSuspicious | ScanClean | ScanErrored

  /** A mail, with whether its subject and body contain phishing phrases and what a scanner said. */
  datatype Email = Email(sender: Sender, attachments: seq<Attachment>, links: seq<Link>,
                         subjectHit: bool, bodyHit: bool, scan: Option<Scan>)

  datatype Status = Safe | Unknown | Dangerous

  datatype Reason =
    | OfFinding(code: Code, about: string) | ThreatReported | ScannerFailed | NotVerified | NoThreatReported

  datatype Result = Result(status: Status, reasons: seq<Reason>)

  // --------------------------------------------------------------------- strings

  /** The last of the first n characters that is one of these, or -1. */
  function LastIndex(s: string, cs: set<char>, n: nat): int
    requires n <= |s|
  {
    if n == 0 then -1 else if s[n - 1] in cs then n - 1 else LastIndex(s, cs, n - 1)
  }

  lemma {:induction false} LastIndexIs(s: string, cs: set<char>, n: nat)
    requires n <= |s|
    ensures var i := LastIndex(s, cs, n);
            -1 <= i < n && (i >= 0 ==> s[i] in cs) && forall j :: i < j < n ==> s[j] !in cs
  {
    if n > 0 {
      LastIndexIs(s, cs, n - 1);
    }
  }

  const SLASHES: set<char> := {'/', '\\'}

  /** What follows the last of these characters. */
  function After(s: string, cs: set<char>): string
  {
    LastIndexIs(s, cs, |s|);
    s[LastIndex(s, cs, |s|) + 1..]
  }

  function LowerChar(c: char): char
  {
    if 'A' <= c <= 'Z' then c - 'A' + 'a' else c
  }

  function Lower(s: string): string
  {
    seq(|s|, i requires 0 <= i < |s| => LowerChar(s[i]))
  }

  predicate IsSpace(c: char)
  {
    c in {' ', '\t', '\n', '\r', '\U{000B}', '\U{000C}', '\U{00A0}', '\U{1680}',
          '\U{2028}', '\U{2029}', '\U{202F}', '\U{205F}', '\U{3000}', '\U{FEFF}'} || '\U{2000}' <= c <= '\U{200A}'
  }

  /** Control characters, and marks that change the direction of the text. */
  predicate Hidden(c: char)
  {
    || c <= '\U{001F}' || c == '\U{007F}' || c in {'\U{200E}', '\U{200F}'}
    || '\U{202A}' <= c <= '\U{202E}' || '\U{2066}' <= c <= '\U{2069}'
  }

  function TrimStart(s: string): string
  {
    if s != "" && IsSpace(s[0]) then TrimStart(s[1..]) else s
  }

  function TrimEnd(s: string): string
  {
    if s != "" && IsSpace(s[|s| - 1]) then TrimEnd(s[..|s| - 1]) else s
  }

  function StripEnd(s: string): string
  {
    if s != "" && (IsSpace(s[|s| - 1]) || s[|s| - 1] == '.') then StripEnd(s[..|s| - 1]) else s
  }

  function Trim(s: string): string { TrimEnd(TrimStart(s)) }

  function UpTo(s: string, c: char): string
  {
    if s == "" || s[0] == c then "" else [s[0]] + UpTo(s[1..], c)
  }

  /** `extensionOf`. */
  function ExtensionOf(name: string): string
  {
    var clean := After(name, SLASHES);
    LastIndexIs(clean, {'.'}, |clean|);
    var idx := LastIndex(clean, {'.'}, |clean|);
    if idx <= 0 || idx == |clean| - 1 then "" else Lower(clean[idx + 1..])
  }

  function CleanName(raw: string): string
  {
    var base := After(raw, SLASHES);
    StripEnd(Lower(Trim(if base != "" then base else raw)))
  }

  /** The last part of a dotted name, and the part before it. */
  function LastPart(s: string): string { After(s, {'.'}) }

  function PartBefore(s: string): string
  {
    LastIndexIs(s, {'.'}, |s|);
    var idx := LastIndex(s, {'.'}, |s|);
    if idx < 0 then "" else After(s[..idx], {'.'})
  }

  function NonEmptyParts(s: string): seq<string>
    decreases |s|
  {
    LastIndexIs(s, {'.'}, |s|);
    var idx := LastIndex(s, {'.'}, |s|);
    var before := if idx < 0 then [] else NonEmptyParts(s[..idx]);
    if s[idx + 1..] == "" then before else before + [s[idx + 1..]]
  }

  /** `baseDomain`: the last two parts of a host. */
  function BaseDomain(host: string): string
  {
    var parts := NonEmptyParts(Lower(host));
    if |parts| >= 2 then parts[|parts| - 2] + "." + parts[|parts| - 1]
    else if |parts| == 1 then parts[0] else ""
  }

  // ----------------------------------------------------------- what the strings mean

  const UPPER: string := "ABCDEFGHIJKLMNOPQRSTUVWXYZ"
  const LOWER: string := "abcdefghijklmnopqrstuvwxyz"

  /** Lower-casing changes exactly the capital letters, each to its own small one. */
  lemma LowersLetters(c: char)
    ensures forall i :: 0 <= i < 26 ==> LowerChar(UPPER[i]) == LOWER[i]
    ensures c !in UPPER ==> LowerChar(c) == c
  {
    if 'A' <= c <= 'Z' {
      assert UPPER[c as int - 'A' as int] == c;
    }
  }

  ghost predicate Without(s: string, cs: set<char>) { forall i :: 0 <= i < |s| ==> s[i] !in cs }

  /** Where a string is split: before the last of these characters, or there is none. */
  lemma LastIndexAt(before: string, c: char, after: string, cs: set<char>)
    requires c in cs && Without(after, cs)
    ensures LastIndex(before + [c] + after, cs, |before| + 1 + |after|) == |before|
  {
    var s := before + [c] + after;
    LastIndexIs(s, cs, |s|);
    assert s[|before|] == c;
    assert forall j :: |before| < j < |s| ==> s[j] == after[j - |before| - 1];
  }

  lemma AfterSplit(before: string, c: char, after: string, cs: set<char>)
    requires c in cs && Without(after, cs)
    ensures After(before + [c] + after, cs) == after
  {
    LastIndexAt(before, c, after, cs);
  }

  lemma AfterNone(s: string, cs: set<char>)
    requires Without(s, cs)
    ensures After(s, cs) == s
  {
    LastIndexIs(s, cs, |s|);
  }

  /** The directory of a path: empty, or ending in a slash. */
  predicate IsDirectory(s: string) { s == "" || s[|s| - 1] in SLASHES }

  /** The path is directory, stem, dot and extension. */
  ghost predicate Extended(name: string, dir: string, stem: string, ext: string)
  {
    && name == dir + (stem + ['.'] + ext) && IsDirectory(dir)
    && stem != "" && ext != "" && Without(stem, SLASHES) && Without(ext, SLASHES + {'.'})
  }

  lemma AfterDirectory(dir: string, base: string)
    requires IsDirectory(dir) && Without(base, SLASHES)
    ensures After(dir + base, SLASHES) == base
  {
    if dir == "" {
      assert dir + base == base;
      AfterNone(base, SLASHES);
    } else {
      var n := |dir| - 1;
      assert dir + base == dir[..n] + [dir[n]] + base;
      AfterSplit(dir[..n], dir[n], base, SLASHES);
    }
  }

  /** The extension of a path is what follows the last dot of its last part, in small letters ... */
  lemma ExtensionIs(name: string, dir: string, stem: string, ext: string)
    requires Extended(name, dir, stem, ext)
    ensures ExtensionOf(name) == Lower(ext) != ""
  {
    var base := stem + ['.'] + ext;
    assert Without(base, SLASHES);
    AfterDirectory(dir, base);
    LastIndexAt(stem, '.', ext, {'.'});
    assert base[|stem| + 1..] == ext;
  }

  /** ... if there is something before and after that dot, and else it has none. */
  lemma ExtensionOnlyIf(name: string) returns (dir: string, stem: string, ext: string)
    requires ExtensionOf(name) != ""
    ensures Extended(name, dir, stem, ext)
  {
    var base;
    dir, base := SplitPath(name);
    LastIndexIs(base, {'.'}, |base|);
    stem, ext := SplitBase(base);
  }

  lemma SplitBase(base: string) returns (stem: string, ext: string)
    requires 0 < LastIndex(base, {'.'}, |base|) < |base| - 1 && Without(base, SLASHES)
    ensures base == stem + ['.'] + ext && stem != "" && ext != ""
    ensures Without(stem, SLASHES) && Without(ext, SLASHES + {'.'})
  {
    LastIndexIs(base, {'.'}, |base|);
    var i := LastIndex(base, {'.'}, |base|);
    stem, ext := base[..i], base[i + 1..];
  }

  lemma SplitPath(name: string) returns (dir: string, base: string)
    ensures base == After(name, SLASHES) && name == dir + base && IsDirectory(dir) && Without(base, SLASHES)
  {
    LastIndexIs(name, SLASHES, |name|);
    var k := LastIndex(name, SLASHES, |name|) + 1;
    dir, base := name[..k], name[k..];
  }

  /** The prefix that is left when characters are stripped from the end. */
  ghost predicate StrippedTo(s: string, r: string, strip: char -> bool)
  {
    && r <= s && (forall i :: |r| <= i < |s| ==> strip(s[i])) && (r != "" ==> !strip(r[|r| - 1]))
  }

  lemma {:induction false} StripEndIs(s: string)
    ensures StrippedTo(s, StripEnd(s), c => IsSpace(c) || c == '.')
  {
    if s != "" && (IsSpace(s[|s| - 1]) || s[|s| - 1] == '.') {
      StripEndIs(s[..|s| - 1]);
    }
  }

  lemma {:induction false} TrimEndIs(s: string)
    ensures StrippedTo(s, TrimEnd(s), IsSpace)
  {
    if s != "" && IsSpace(s[|s| - 1]) {
      TrimEndIs(s[..|s| - 1]);
    }
  }

  /** What is left of a text without the space at its start begins at k. */
  lemma {:induction false} TrimStartIs(s: string) returns (k: nat)
    ensures k <= |s| && TrimStart(s) == s[k..]
    ensures (forall i :: 0 <= i < k ==> IsSpace(s[i])) && (k < |s| ==> !IsSpace(s[k]))
  {
    k := 0;
    if s != "" && IsSpace(s[0]) {
      k := TrimStartIs(s[1..]);
      k := k + 1;
    }
  }

  lemma {:induction false} UpToIs(s: string, c: char)
    ensures var r := UpTo(s, c); r <= s && c !in r && (r == s || s[|r|] == c)
  {
    if s != "" && s[0] != c {
      UpToIs(s[1..], c);
    }
  }

  /** The parts of a dotted name: adding a dot and a part adds the part, unless it is empty. */
  lemma PartsAre(s: string, part: string)
    requires '.' !in part
    ensures NonEmptyParts(s + ['.'] + part) ==
            if part == "" then NonEmptyParts(s) else NonEmptyParts(s) + [part]
  {
    var all := s + ['.'] + part;
    assert LastIndex(all, {'.'}, |all|) == |s| by {
      assert Without(part, {'.'});
      LastIndexAt(s, '.', part, {'.'});
    }
    assert all[..|s|] == s && all[|s| + 1..] == part;
    PartsOf(all, s, part);
  }

  lemma PartsOf(all: string, head: string, tail: string)
    requires |head| < |all| && LastIndex(all, {'.'}, |all|) == |head|
    requires all[..|head|] == head && all[|head| + 1..] == tail
    ensures NonEmptyParts(all) == if tail == "" then NonEmptyParts(head) else NonEmptyParts(head) + [tail]
  {
  }

  lemma OnePart(part: string)
    requires '.' !in part
    ensures NonEmptyParts(part) == if part == "" then [] else [part]
  {
    LastIndexIs(part, {'.'}, |part|);
    assert LastIndex(part, {'.'}, |part|) == -1;
    assert part[0..] == part;
  }

  lemma LowerOf(a: string, b: string)
    ensures Lower(a + b) == Lower(a) + Lower(b)
  {
  }

  lemma LowerHasNoDot(s: string)
    requires '.' !in s
    ensures '.' !in Lower(s)
  {
    forall i | 0 <= i < |s| ensures Lower(s)[i] != '.' {
      assert s[i] in s;
    }
  }

  lemma LowerDotted(s: string, part: string)
    ensures Lower(s + ['.'] + part) == Lower(s) + ['.'] + Lower(part)
  {
    LowerOf(s + ['.'], part);
    LowerOf(s, ['.']);
  }

  /** The base domain of a host is its last two parts, in small letters ... */
  lemma BaseDomainIs(s: string, a: string, b: string)
    requires '.' !in a && '.' !in b && a != "" && b != ""
    ensures BaseDomain(s + ['.'] + a + ['.'] + b) == Lower(a) + "." + Lower(b)
  {
    LowerHasNoDot(a);
    LowerHasNoDot(b);
    LowerDotted(s + ['.'] + a, b);
    LowerDotted(s, a);
    PartsAre(Lower(s), Lower(a));
    PartsAre(Lower(s) + ['.'] + Lower(a), Lower(b));
  }

  /** ... or all of it, if it has no more than two. */
  lemma ShortBaseDomainIs(a: string, b: string)
    requires '.' !in a && '.' !in b && a != "" && b != ""
    ensures BaseDomain(a + ['.'] + b) == Lower(a) + "." + Lower(b) && BaseDomain(b) == Lower(b)
  {
    LowerHasNoDot(b);
    OnePart(Lower(b));
    assert NonEmptyParts(Lower(a + ['.'] + b)) == [Lower(a), Lower(b)] by {
      TwoParts(a, b);
    }
  }

  lemma TwoParts(a: string, b: string)
    requires '.' !in a && '.' !in b && a != "" && b != ""
    ensures NonEmptyParts(Lower(a + ['.'] + b)) == [Lower(a), Lower(b)]
  {
    LowerHasNoDot(a);
    LowerHasNoDot(b);
    LowerDotted(a, b);
    OnePart(Lower(a));
    PartsAre(Lower(a), Lower(b));
  }

  /** The sender's domain is what follows the last @, if something is before it. */
  lemma SenderBaseIs(s: Sender, name: string, host: string)
    requires s.address == name + ['@'] + host && '@' !in host
    ensures SenderBase(s) == if name == "" then "" else BaseDomain(host)
  {
    assert Without(host, {'@'}) by {
      forall i | 0 <= i < |host| ensures host[i] != '@' {
        assert host[i] in host;
      }
    }
    LastIndexAt(name, '@', host, {'@'});
    assert s.address[|name| + 1..] == host;
  }

  lemma NoSenderBase(s: Sender)
    requires '@' !in s.address
    ensures SenderBase(s) == ""
  {
    LastIndexIs(s.address, {'@'}, |s.address|);
  }

  /** A file is known by the last part of its path, or the whole if that is empty, trimmed and in small letters. */
  lemma CleansName(dir: string, base: string)
    requires IsDirectory(dir) && Without(base, SLASHES)
    ensures CleanName(dir + base) == StripEnd(Lower(Trim(if base == "" then dir else base)))
  {
    AfterDirectory(dir, base);
    assert base == "" ==> dir + base == dir;
  }

  lemma {:induction false} UpToSplit(s: string, c: char, rest: string)
    requires c !in s
    ensures UpTo(s + [c] + rest, c) == s
  {
    var all := s + [c] + rest;
    if s != "" {
      UpToSplit(s[1..], c, rest);
      assert all[1..] == s[1..] + [c] + rest && all[0] == s[0];
    }
  }

  /** The type is what is before the parameters, trimmed and in small letters. */
  lemma TypeIs(att: Attachment, t: string, parameters: string)
    requires att.contentType == t + [';'] + parameters && ';' !in t
    ensures TypeOf(att) == Trim(Lower(t))
  {
    LowerOf(t + [';'], parameters);
    LowerOf(t, [';']);
    assert Lower([';']) == [';'];
    forall i | 0 <= i < |t| ensures Lower(t)[i] != ';' {
      assert t[i] in t;
    }
    UpToSplit(Lower(t), ';', Lower(parameters));
  }

  /** A double extension: the name ends in a decoy, a dot and a dangerous one, the decoy after a dot or alone. */
  ghost predicate EndsDoubly(clean: string, stem: string, decoy: Extension, ext: Extension)
  {
    && clean == stem + decoy + ['.'] + ext && (stem == "" || stem[|stem| - 1] == '.')
    && decoy in DECOY_EXTENSIONS && ext in DANGEROUS_EXTENSIONS
  }

  lemma DoubleExtensionIf(clean: string, stem: string, decoy: Extension, ext: Extension)
    requires EndsDoubly(clean, stem, decoy, ext)
    ensures HasDoubleExtension(clean)
  {
    LastIndexAt(stem + decoy, '.', ext, {'.'});
    assert clean[..|stem + decoy|] == stem + decoy && clean[|stem + decoy|] == '.';
    AfterDots(stem, decoy);
  }

  lemma AfterDots(stem: string, part: string)
    requires (stem == "" || stem[|stem| - 1] == '.') && '.' !in part
    ensures After(stem + part, {'.'}) == part
  {
    if stem == "" {
      assert stem + part == part;
      AfterNone(part, {'.'});
    } else {
      var n := |stem| - 1;
      assert stem + part == stem[..n] + ['.'] + part;
      AfterSplit(stem[..n], '.', part, {'.'});
    }
  }

  /** A name with a dot is what is before the last one, the dot, and its last part. */
  lemma SplitDot(s: string) returns (before: string)
    requires '.' in s
    ensures s == before + ['.'] + LastPart(s) && PartBefore(s) == After(before, {'.'})
  {
    LastIndexIs(s, {'.'}, |s|);
    before := s[..LastIndex(s, {'.'}, |s|)];
  }

  lemma SplitParts(s: string) returns (stem: string)
    ensures s == stem + After(s, {'.'}) && (stem == "" || stem[|stem| - 1] == '.')
  {
    LastIndexIs(s, {'.'}, |s|);
    stem := s[..LastIndex(s, {'.'}, |s|) + 1];
  }

  lemma DoubleExtensionOnlyIf(clean: string) returns (stem: string, decoy: Extension, ext: Extension)
    requires HasDoubleExtension(clean)
    ensures EndsDoubly(clean, stem, decoy, ext)
  {
    var before := SplitDot(clean);
    stem := SplitParts(before);
    decoy, ext := PartBefore(clean), LastPart(clean);
  }

  // ------------------------------------------------------------------------ lists

  lemma {:induction false} SetOfIs<T>(list: seq<T>, n: nat)
    requires n <= |list|
    ensures forall x :: x in SetOf(list, n) <==> x in list[..n]
  {
    if n > 0 {
      SetOfIs(list, n - 1);
      assert list[..n] == list[..n - 1] + [list[n - 1]];
    }
  }

  /** The first n of a list, as a set. */
  function SetOf<T>(list: seq<T>, n: nat): set<T>
    requires n <= |list|
  {
    if n == 0 then {} else SetOf(list, n - 1) + {list[n - 1]}
  }

  /** An extension: not empty, without dots, and no slash at its end. */
  type Extension = e: string | e != "" && '.' !in e && e[|e| - 1] != '/' && e[|e| - 1] != '\\' witness "exe"

  const PROGRAMS: seq<Extension> := [
    "exe", "scr", "com", "pif", "dll", "sys", "cpl", "run", "bin", "elf", "so", "dylib"
  ]

  const PACKAGES: seq<Extension> := [
    "msi", "msp", "msix", "appx", "jar", "apk", "dex", "deb", "rpm", "gadget", "application"
  ]

  const SCRIPTS: seq<Extension> := [
    "bat", "cmd", "vbs", "vbe", "js", "jse", "wsf", "wsh", "ps1", "psm1", "hta", "sh", "ws", "reg", "chm", "outlook"
  ]

  const SHORTCUTS_AND_IMAGES: seq<Extension> := [
    "lnk", "url", "iso", "img", "vhd", "vhdx"
  ]

  const MACRO_DOCUMENTS: seq<Extension> := [
    "docm", "dotm", "xlsm", "xltm", "xlam", "pptm", "ppsm", "potm"
  ]

  const DANGEROUS_LIST: seq<Extension> := PROGRAMS + PACKAGES + SCRIPTS + SHORTCUTS_AND_IMAGES + MACRO_DOCUMENTS
  const DANGEROUS_EXTENSIONS: set<Extension> := SetOf(DANGEROUS_LIST, |DANGEROUS_LIST|)

  const SAFE_LIST: seq<string> := [
    "jpg", "jpeg", "png", "gif", "bmp", "webp", "heic", "tif", "tiff",
    "pdf", "txt", "csv", "rtf", "md", "log", "doc", "docx", "xls", "xlsx",
    "ppt", "pptx", "pps", "odt", "ods", "odp", "ics", "vcf",
    "mp3", "mp4", "m4a", "wav", "flac", "ogg", "mov", "avi", "mkv", "webm"
  ]
  const SAFE_EXTENSIONS: set<string> := SetOf(SAFE_LIST, |SAFE_LIST|)

  const DECOY_LIST: seq<Extension> := [
    "pdf", "doc", "docx", "xls", "xlsx", "ppt", "pptx", "txt", "csv", "rtf",
    "jpg", "jpeg", "png", "gif", "html", "htm", "mp3", "mp4", "zip"
  ]
  const DECOY_EXTENSIONS: set<Extension> := SetOf(DECOY_LIST, |DECOY_LIST|)

  const DANGEROUS_TYPE_LIST: seq<string> := [
    "application/x-msdownload", "application/x-msdos-program", "application/x-executable",
    "application/x-dosexec", "application/x-exe", "application/x-ms-shortcut",
    "application/vnd.microsoft.portable-executable", "application/x-bat", "application/x-sh",
    "application/x-shellscript", "application/x-msi", "application/java-archive",
    "application/x-java-archive", "application/x-apple-diskimage", "application/x-cd-image",
    "application/x-iso9660-image"
  ]
  const DANGEROUS_CONTENT_TYPES: set<string> := SetOf(DANGEROUS_TYPE_LIST, |DANGEROUS_TYPE_LIST|)

  const SAFE_TYPE_LIST: seq<string> := [
    "application/pdf", "application/rtf", "application/msword",
    "application/vnd.ms-excel", "application/vnd.ms-powerpoint",
    "application/vnd.openxmlformats-officedocument.wordprocessingml.document",
    "application/vnd.openxmlformats-officedocument.spreadsheetml.sheet",
    "application/vnd.openxmlformats-officedocument.presentationml.presentation",
    "application/vnd.oasis.opendocument.text", "application/vnd.oasis.opendocument.spreadsheet",
    "application/vnd.oasis.opendocument.presentation", "text/plain", "text/csv",
    "text/rtf", "audio/mpeg", "audio/mp4", "audio/wav", "audio/x-wav",
    "video/mp4", "video/quicktime", "video/webm"
  ]
  const SAFE_CONTENT_TYPES: set<string> := SetOf(SAFE_TYPE_LIST, |SAFE_TYPE_LIST|)

  const SHORTENER_LIST: seq<string> := [
    "bit.ly", "tinyurl.com", "goo.gl", "t.co", "is.gd", "ow.ly", "cutt.ly", "cutt.us",
    "rebrand.ly", "shorturl.at", "rb.gy", "tiny.cc", "s.id", "v.gd", "buff.ly", "lnkd.in",
    "bl.ink", "soo.gd", "clk.sh"
  ]
  const SHORTENERS: set<string> := SetOf(SHORTENER_LIST, |SHORTENER_LIST|)

  // ----------------------------------------------------------------------- checks

  predicate Obfuscated(name: string) { exists i :: 0 <= i < |name| && Hidden(name[i]) }

  function TypeOf(att: Attachment): string { Trim(UpTo(Lower(att.contentType), ';')) }

  predicate HasDoubleExtension(clean: string)
  {
    '.' in clean && LastPart(clean) in DANGEROUS_EXTENSIONS && PartBefore(clean) in DECOY_EXTENSIONS
  }

  function Append(findings: seq<Finding>, condition: bool, f: Finding): seq<Finding>
  {
    if condition then findings + [f] else findings
  }

  /** The list of findings after `checkAttachment`. */
  function WithAttachment(found: seq<Finding>, att: Attachment): seq<Finding>
  {
    var clean := CleanName(att.filename);
    WithFile(found, clean, Obfuscated(att.filename), ExtensionOf(clean) in DANGEROUS_EXTENSIONS,
             TypeOf(att) in DANGEROUS_CONTENT_TYPES, HasDoubleExtension(clean))
  }

  /** The findings on a file, by what is wrong with its name, extension and type. */
  function WithFile(found: seq<Finding>, clean: string, obfuscated: bool, dangerous: bool, dangerousType: bool,
                    double: bool): seq<Finding>
  {
    var found := Append(found, obfuscated, Finding(Malicious, ObfuscatedFilename, clean));
    var found := Append(found, dangerous, Finding(Malicious, DangerousAttachment, clean));
    var found := Append(found, dangerousType, Finding(Malicious, DangerousAttachmentType, clean));
    Append(found, double, Finding(Malicious, DoubleExtension, clean))
  }

  predicate SafeType(t: string)
  {
    "image/" <= t || "audio/" <= t || "video/" <= t || t in SAFE_CONTENT_TYPES
  }

  predicate Unresolved(att: Attachment)
  {
    ExtensionOf(CleanName(att.filename)) !in SAFE_EXTENSIONS && !SafeType(TypeOf(att))
  }

  predicate IsShort(host: string) { BaseDomain(host) in SHORTENERS || host in SHORTENERS }

  predicate IsWeb(link: Link)
    requires link.Parsed?
  {
    link.protocol == "http:" || link.protocol == "https:"
  }

  /** The list of findings after `checkLink`. */
  function WithLink(found: seq<Finding>, link: Link): seq<Finding>
  {
    if link.Malformed? then found + [Finding(Suspicious, MalformedUrl, "")]
    else if !IsWeb(link) then found + [Finding(Malicious, DangerousUrlScheme, link.protocol)]
    else if link.host == "" then found + [Finding(Suspicious, NoHost, "")]
    else WithHost(found, link, IsShort(link.host), ExtensionOf(link.path))
  }

  /** The checks on a link with a host, which may be a shortener, and on the extension of its path. */
  function WithHost(found: seq<Finding>, link: Link, short: bool, ext: string): seq<Finding>
    requires link.Parsed?
  {
    var found := Append(found, link.userinfo, Finding(Suspicious, UserinfoTrick, link.raw));
    var found := Append(found, link.ip, Finding(Suspicious, IpHost, link.host));
    var found := Append(found, link.punycode, Finding(Suspicious, PunycodeHost, link.host));
    var found := Append(found, short, Finding(Suspicious, ShortenedUrl, link.host));
    Append(found, ext in DANGEROUS_EXTENSIONS, Finding(Malicious, ExecutableDownload, ext))
  }

  /** The list of findings after `checkSender`. */
  function WithSender(found: seq<Finding>, s: Sender): seq<Finding>
  {
    if s.address == "" then found + [Finding(Suspicious, MissingSender, "")]
    else if !s.valid then found + [Finding(Suspicious, InvalidSender, "")]
    else
      var found := Append(found, s.ip, Finding(Suspicious, IpSender, ""));
      var found := Append(found, s.punycode, Finding(Suspicious, PunycodeSender, ""));
      var found := Append(found, s.spoofed, Finding(Suspicious, SpoofedDisplayName, s.address));
      Append(found, s.brandOnFreemail, Finding(Suspicious, BrandImpersonation, s.address))
  }

  function SenderBase(s: Sender): string
  {
    LastIndexIs(s.address, {'@'}, |s.address|);
    var at := LastIndex(s.address, {'@'}, |s.address|);
    if at > 0 then BaseDomain(s.address[at + 1..]) else ""
  }

  predicate Foreign(link: Link, base: string)
  {
    link.Malformed? || (link.host != "" && BaseDomain(link.host) != base)
  }

  /** Some element passes the test. */
  ghost predicate Any<T(!new)>(xs: seq<T>, test: T -> bool)
  {
    exists i :: 0 <= i < |xs| && test(xs[i])
  }

  ghost predicate HasForeignLink(email: Email)
  {
    var base := SenderBase(email.sender);
    base == "" || Any(email.links, link => Foreign(link, base))
  }

  ghost predicate Escalated(email: Email)
  {
    && (email.links != [] || email.attachments != [])
    && (email.subjectHit || email.attachments != [] || (email.links != [] && HasForeignLink(email)))
  }

  /** The list of findings after `checkWording`. */
  ghost function WithWording(found: seq<Finding>, email: Email): seq<Finding>
  {
    if !email.subjectHit && !email.bodyHit then found
    else if Escalated(email) then found + [Finding(Suspicious, PhishingWording, "")]
    else found + [Finding(Info, UrgencyWording, "")]
  }

  /** The list of findings after the first n of some things have been checked. */
  function Checked<T>(found: seq<Finding>, xs: seq<T>, n: nat, check: (seq<Finding>, T) -> seq<Finding>): seq<Finding>
    requires n <= |xs|
  {
    if n == 0 then found else check(Checked(found, xs, n - 1, check), xs[n - 1])
  }

  function CountOf<T>(xs: seq<T>, n: nat, test: T -> bool): nat
    requires n <= |xs|
  {
    if n == 0 then 0 else CountOf(xs, n - 1, test) + if test(xs[n - 1]) then 1 else 0
  }

  ghost function Findings(email: Email): seq<Finding>
  {
    var found := WithSender([], email.sender);
    var found := Checked(found, email.attachments, |email.attachments|, WithAttachment);
    var found := Checked(found, email.links, |email.links|, WithLink);
    WithWording(found, email)
  }

  /** `findings.some(...)`. */
  predicate Alarming(findings: seq<Finding>)
  {
    exists i :: 0 <= i < |findings| && !findings[i].level.Info?
  }

  function ReasonsUpTo(findings: seq<Finding>, n: nat): seq<Reason>
    requires n <= |findings|
  {
    if n == 0 then []
    else if findings[n - 1].level.Info? then ReasonsUpTo(findings, n - 1)
    else ReasonsUpTo(findings, n - 1) + [OfFinding(findings[n - 1].code, findings[n - 1].about)]
  }

  function Unique(reasons: seq<Reason>, n: nat): seq<Reason>
    requires n <= |reasons|
  {
    if n == 0 then []
    else if reasons[n - 1] in Unique(reasons, n - 1) then Unique(reasons, n - 1)
    else Unique(reasons, n - 1) + [reasons[n - 1]]
  }

  /** `makeResult`: no reason twice, and at most eight. */
  function MakeResult(status: Status, reasons: seq<Reason>): Result
  {
    var unique := Unique(reasons, |reasons|);
    Result(status, if |unique| > 8 then unique[..8] else unique)
  }

  /** The verdict, from all that was found. */
  function Judge(scan: Option<Scan>, findings: seq<Finding>, unresolved: nat): Result
  {
    var reasons := ReasonsUpTo(findings, |findings|);
    if scan == Some(ScanMalicious) || scan == Some(ScanSuspicious) then
      MakeResult(Dangerous, [ThreatReported] + reasons)
    else if Alarming(findings) then MakeResult(Dangerous, reasons)
    else if scan == Some(ScanErrored) then MakeResult(Unknown, reasons + [ScannerFailed])
    else if unresolved > 0 then MakeResult(Unknown, reasons + [NotVerified])
    else if scan == Some(ScanClean) then MakeResult(Safe, reasons + [NoThreatReported])
    else MakeResult(Safe, reasons)
  }

  ghost function Assess(email: Email): Result
  {
    Judge(email.scan, Findings(email), CountOf(email.attachments, |email.attachments|, Unresolved))
  }

  // ------------------------------------------------------------- what the verdict means

  /** What makes an attachment, a link or a sender alarming; a double extension adds nothing to it. */
  predicate BadAttachment(att: Attachment)
  {
    || (exists c :: c in att.filename && Hidden(c))
    || ExtensionOf(CleanName(att.filename)) in DANGEROUS_EXTENSIONS || TypeOf(att) in DANGEROUS_CONTENT_TYPES
  }

  predicate BadLink(link: Link)
  {
    || link.Malformed? || link.protocol !in {"http:", "https:"} || link.host == "" || link.userinfo || link.ip
    || link.punycode || link.host in SHORTENERS || BaseDomain(link.host) in SHORTENERS
    || ExtensionOf(link.path) in DANGEROUS_EXTENSIONS
  }

  predicate BadSender(s: Sender)
  {
    s.address == "" || !s.valid || s.ip || s.punycode || s.spoofed || s.brandOnFreemail
  }

  /** Some link may lead away from the sender's domain: it does, it cannot be parsed, or there is no such domain. */
  predicate LeadsAway(email: Email)
  {
    email.links != [] &&
    (SenderBase(email.sender) == "" ||
     exists link :: link in email.links &&
       (link.Malformed? || (link.host != "" && BaseDomain(link.host) != SenderBase(email.sender))))
  }

  /** Pressing words count if there are attachments, or links and a pressing subject or one that may lead away. */
  predicate BadWording(email: Email)
  {
    (email.subjectHit || email.bodyHit) &&
    (email.attachments != [] || (email.links != [] && email.subjectHit) || LeadsAway(email))
  }

  predicate IsDangerous(email: Email)
  {
    || email.scan in {Some(ScanMalicious), Some(ScanSuspicious)} || BadSender(email.sender)
    || (exists att :: att in email.attachments && BadAttachment(att))
    || (exists link :: link in email.links && BadLink(link)) || BadWording(email)
  }

  /** Neither its extension nor its type is known to be harmless. */
  predicate NotKnown(att: Attachment)
  {
    var t := TypeOf(att);
    !(ExtensionOf(CleanName(att.filename)) in SAFE_EXTENSIONS || t in SAFE_CONTENT_TYPES ||
      "image/" <= t || "audio/" <= t || "video/" <= t)
  }

  predicate IsUnclear(email: Email)
  {
    email.scan == Some(ScanErrored) || exists att :: att in email.attachments && NotKnown(att)
  }

  lemma AnyIn<T(!new)>(xs: seq<T>, test: T -> bool)
    ensures Any(xs, test) <==> exists x :: x in xs && test(x)
  {
    if Any(xs, test) {
      var i :| 0 <= i < |xs| && test(xs[i]);
      assert xs[i] in xs;
    }
  }

  lemma ObfuscatedIs(name: string)
    ensures Obfuscated(name) <==> exists c :: c in name && Hidden(c)
  {
    if Obfuscated(name) {
      var i :| 0 <= i < |name| && Hidden(name[i]);
      assert name[i] in name;
    }
  }

  lemma WordingIs(email: Email)
    ensures (email.subjectHit || email.bodyHit) && Escalated(email) <==> BadWording(email)
  {
    AnyIn(email.links, link => Foreign(link, SenderBase(email.sender)));
  }

  lemma AlarmingAppend(found: seq<Finding>, condition: bool, f: Finding)
    requires !f.level.Info?
    ensures Alarming(Append(found, condition, f)) <==> Alarming(found) || condition
  {
    var all := found + [f];
    assert all[|found|] == f;
    if Alarming(found) {
      var i :| 0 <= i < |found| && !found[i].level.Info?;
      assert all[i] == found[i];
    }
  }

  // ------------------------------------------------------------- double extensions

  lemma {:induction false} LowerOfLower(s: string)
    ensures Lower(Lower(s)) == Lower(s)
  {
  }

  ghost predicate NoSlash(s: string) { forall i :: 0 <= i < |s| ==> s[i] !in SLASHES }

  lemma {:induction false} TrimStartKeeps(s: string)
    ensures NoSlash(s) ==> NoSlash(TrimStart(s))
    ensures s != "" && s[|s| - 1] in SLASHES ==> TrimStart(s) != "" && TrimStart(s)[|TrimStart(s)| - 1] in SLASHES
  {
    if s != "" && IsSpace(s[0]) {
      TrimStartKeeps(s[1..]);
    }
  }

  lemma {:induction false} TrimEndKeeps(s: string)
    ensures NoSlash(s) ==> NoSlash(TrimEnd(s))
    ensures s != "" && s[|s| - 1] in SLASHES ==> TrimEnd(s) == s
  {
    if s != "" && IsSpace(s[|s| - 1]) {
      TrimEndKeeps(s[..|s| - 1]);
    }
  }

  ghost predicate IsLower(s: string) { Lower(s) == s }

  lemma {:induction false} StripEndKeeps(s: string)
    requires IsLower(s)
    ensures NoSlash(s) ==> NoSlash(StripEnd(s))
    ensures s != "" && s[|s| - 1] in SLASHES ==> StripEnd(s) == s
    ensures IsLower(StripEnd(s))
  {
    if s != "" && (IsSpace(s[|s| - 1]) || s[|s| - 1] == '.') {
      var t := s[..|s| - 1];
      assert forall i :: 0 <= i < |t| ==> Lower(t)[i] == Lower(s)[i] == t[i];
      StripEndKeeps(t);
    }
  }

  lemma LowerKeeps(s: string)
    ensures NoSlash(s) ==> NoSlash(Lower(s))
    ensures s != "" && s[|s| - 1] in SLASHES ==> Lower(s)[|s| - 1] in SLASHES
  {
  }

  /** A cleaned name has no slash, or it ends in one. */
  lemma CleanNameIs(raw: string)
    ensures var c := CleanName(raw); IsLower(c) && (NoSlash(c) || (c != "" && c[|c| - 1] in SLASHES))
  {
    var base := After(raw, SLASHES);
    LastIndexIs(raw, SLASHES, |raw|);
    var s := if base != "" then base else raw;
    assert NoSlash(base);
    assert NoSlash(s) || s[|s| - 1] in SLASHES;
    TrimStartKeeps(s);
    TrimEndKeeps(TrimStart(s));
    LowerKeeps(Trim(s));
    LowerOfLower(Trim(s));
    StripEndKeeps(Lower(Trim(s)));
  }

  lemma DangerousEndsPlainly(e: string)
    requires e in DANGEROUS_EXTENSIONS
    ensures e != "" && e[|e| - 1] !in SLASHES
  {
  }

  lemma NoSlashIsWhole(s: string)
    requires NoSlash(s)
    ensures After(s, SLASHES) == s
  {
    LastIndexIs(s, SLASHES, |s|);
  }

  lemma LowerSuffix(s: string, k: nat)
    requires IsLower(s) && k <= |s|
    ensures Lower(s[k..]) == s[k..]
  {
    forall i | k <= i < |s| ensures LowerChar(s[i]) == s[i] {
      assert Lower(s)[i] == s[i];
    }
  }

  lemma FirstPartIsEmpty(c: string)
    requires LastIndex(c, {'.'}, |c|) == 0
    ensures PartBefore(c) == ""
  {
    LastIndexIs(c, {'.'}, |c|);
    assert c[..0] == "";
  }

  lemma DotBetween(c: string)
    requires '.' in c && LastPart(c) != "" && PartBefore(c) != ""
    ensures 0 < LastIndex(c, {'.'}, |c|) < |c| - 1
  {
    LastIndexIs(c, {'.'}, |c|);
    if LastIndex(c, {'.'}, |c|) == 0 {
      FirstPartIsEmpty(c);
    }
  }

  lemma ExtensionOfWhole(c: string)
    requires NoSlash(c) && 0 < LastIndex(c, {'.'}, |c|) < |c| - 1
    ensures ExtensionOf(c) == Lower(LastPart(c))
  {
    NoSlashIsWhole(c);
  }

  lemma ExtensionIsLastPart(c: string)
    requires IsLower(c) && NoSlash(c) && '.' in c && LastPart(c) != "" && PartBefore(c) != ""
    ensures ExtensionOf(c) == LastPart(c)
  {
    DotBetween(c);
    ExtensionOfWhole(c);
    LowerSuffix(c, LastIndex(c, {'.'}, |c|) + 1);
  }

  lemma LastPartEnds(c: string)
    requires LastPart(c) != ""
    ensures c != "" && LastPart(c)[|LastPart(c)| - 1] == c[|c| - 1]
  {
    LastIndexIs(c, {'.'}, |c|);
  }

  lemma DoubleExtensionHasLast(raw: string)
    requires HasDoubleExtension(CleanName(raw))
    ensures ExtensionOf(CleanName(raw)) in DANGEROUS_EXTENSIONS
  {
    var c := CleanName(raw);
    CleanNameIs(raw);
    DangerousEndsPlainly(LastPart(c));
    LastPartEnds(c);
    ExtensionIsLastPart(c);
  }

  /** A double extension always comes with a dangerous one on the same file, so it never decides alone. */
  lemma DoubleExtensionIsDangerous(found: seq<Finding>, att: Attachment)
    requires HasDoubleExtension(CleanName(att.filename))
    ensures ExtensionOf(CleanName(att.filename)) in DANGEROUS_EXTENSIONS
    ensures var clean := CleanName(att.filename);
            Finding(Malicious, DoubleExtension, clean) in WithAttachment(found, att) &&
            Finding(Malicious, DangerousAttachment, clean) in WithAttachment(found, att)
  {
    DoubleExtensionHasLast(att.filename);
  }

  // ------------------------------------------------------------------ the verdict

  lemma FileIsAlarming(found: seq<Finding>, clean: string, obfuscated: bool, dangerous: bool, dangerousType: bool,
                       double: bool)
    ensures Alarming(WithFile(found, clean, obfuscated, dangerous, dangerousType, double)) <==>
            Alarming(found) || obfuscated || dangerous || dangerousType || double
  {
    var a := Append(found, obfuscated, Finding(Malicious, ObfuscatedFilename, clean));
    var b := Append(a, dangerous, Finding(Malicious, DangerousAttachment, clean));
    var c := Append(b, dangerousType, Finding(Malicious, DangerousAttachmentType, clean));
    AlarmingAppend(found, obfuscated, Finding(Malicious, ObfuscatedFilename, clean));
    AlarmingAppend(a, dangerous, Finding(Malicious, DangerousAttachment, clean));
    AlarmingAppend(b, dangerousType, Finding(Malicious, DangerousAttachmentType, clean));
    AlarmingAppend(c, double, Finding(Malicious, DoubleExtension, clean));
  }

  lemma AttachmentIsAlarming(found: seq<Finding>, att: Attachment)
    ensures Alarming(WithAttachment(found, att)) <==> Alarming(found) || BadAttachment(att)
  {
    var clean := CleanName(att.filename);
    FileIsAlarming(found, clean, Obfuscated(att.filename), ExtensionOf(clean) in DANGEROUS_EXTENSIONS,
                   TypeOf(att) in DANGEROUS_CONTENT_TYPES, HasDoubleExtension(clean));
    if HasDoubleExtension(clean) {
      DoubleExtensionHasLast(att.filename);
    }
    ObfuscatedIs(att.filename);
  }

  lemma HostIsAlarming(found: seq<Finding>, link: Link, short: bool, ext: string)
    requires link.Parsed?
    ensures Alarming(WithHost(found, link, short, ext)) <==>
            Alarming(found) || link.userinfo || link.ip || link.punycode || short || ext in DANGEROUS_EXTENSIONS
  {
    var a := Append(found, link.userinfo, Finding(Suspicious, UserinfoTrick, link.raw));
    var b := Append(a, link.ip, Finding(Suspicious, IpHost, link.host));
    var c := Append(b, link.punycode, Finding(Suspicious, PunycodeHost, link.host));
    var d := Append(c, short, Finding(Suspicious, ShortenedUrl, link.host));
    AlarmingAppend(found, link.userinfo, Finding(Suspicious, UserinfoTrick, link.raw));
    AlarmingAppend(a, link.ip, Finding(Suspicious, IpHost, link.host));
    AlarmingAppend(b, link.punycode, Finding(Suspicious, PunycodeHost, link.host));
    AlarmingAppend(c, short, Finding(Suspicious, ShortenedUrl, link.host));
    AlarmingAppend(d, ext in DANGEROUS_EXTENSIONS, Finding(Malicious, ExecutableDownload, ext));
  }

  lemma LinkIsAlarming(found: seq<Finding>, link: Link)
    ensures Alarming(WithLink(found, link)) <==> Alarming(found) || BadLink(link)
  {
    if link.Malformed? {
      AlarmingAppend(found, true, Finding(Suspicious, MalformedUrl, ""));
    } else if !IsWeb(link) {
      AlarmingAppend(found, true, Finding(Malicious, DangerousUrlScheme, link.protocol));
    } else if link.host == "" {
      AlarmingAppend(found, true, Finding(Suspicious, NoHost, ""));
    } else {
      HostIsAlarming(found, link, IsShort(link.host), ExtensionOf(link.path));
    }
  }

  lemma SenderIsAlarming(s: Sender)
    ensures Alarming(WithSender([], s)) <==> BadSender(s)
  {
    var none: seq<Finding> := [];
    if s.address == "" {
      AlarmingAppend(none, true, Finding(Suspicious, MissingSender, ""));
    } else if !s.valid {
      AlarmingAppend(none, true, Finding(Suspicious, InvalidSender, ""));
    } else {
      var a := Append(none, s.ip, Finding(Suspicious, IpSender, ""));
      var b := Append(a, s.punycode, Finding(Suspicious, PunycodeSender, ""));
      var c := Append(b, s.spoofed, Finding(Suspicious, SpoofedDisplayName, s.address));
      AlarmingAppend(none, s.ip, Finding(Suspicious, IpSender, ""));
      AlarmingAppend(a, s.punycode, Finding(Suspicious, PunycodeSender, ""));
      AlarmingAppend(b, s.spoofed, Finding(Suspicious, SpoofedDisplayName, s.address));
      AlarmingAppend(c, s.brandOnFreemail, Finding(Suspicious, BrandImpersonation, s.address));
    }
  }

  lemma WordingIsAlarming(found: seq<Finding>, email: Email)
    ensures Alarming(WithWording(found, email)) <==>
            Alarming(found) || ((email.subjectHit || email.bodyHit) && Escalated(email))
  {
    AlarmingAppend(found, true, Finding(Suspicious, PhishingWording, ""));
    var all := found + [Finding(Info, UrgencyWording, "")];
    if Alarming(found) {
      var i :| 0 <= i < |found| && !found[i].level.Info?;
      assert all[i] == found[i];
    }
    if Alarming(all) {
      var i :| 0 <= i < |all| && !all[i].level.Info?;
      assert found[i] == all[i];
    }
  }

  lemma {:induction false} CheckedIsAlarming<T(!new)>(found: seq<Finding>, xs: seq<T>, n: nat,
                                                      check: (seq<Finding>, T) -> seq<Finding>, bad: T -> bool)
    requires n <= |xs| && forall f, x :: Alarming(check(f, x)) <==> Alarming(f) || bad(x)
    ensures Alarming(Checked(found, xs, n, check)) <==> Alarming(found) || exists i :: 0 <= i < n && bad(xs[i])
  {
    if n > 0 {
      CheckedIsAlarming(found, xs, n - 1, check, bad);
      assert Alarming(check(Checked(found, xs, n - 1, check), xs[n - 1])) <==>
             Alarming(Checked(found, xs, n - 1, check)) || bad(xs[n - 1]);
    }
  }

  lemma {:induction false} CountedSome<T(!new)>(xs: seq<T>, n: nat, test: T -> bool)
    requires n <= |xs|
    ensures CountOf(xs, n, test) > 0 <==> exists i :: 0 <= i < n && test(xs[i])
  {
    if n > 0 {
      CountedSome(xs, n - 1, test);
    }
  }

  lemma FindingsAreAlarming(email: Email)
    ensures Alarming(Findings(email)) <==>
            || BadSender(email.sender) || Any(email.attachments, BadAttachment) || Any(email.links, BadLink)
            || BadWording(email)
  {
    var a := WithSender([], email.sender);
    var b := Checked(a, email.attachments, |email.attachments|, WithAttachment);
    var c := Checked(b, email.links, |email.links|, WithLink);
    SenderIsAlarming(email.sender);
    forall f, att ensures Alarming(WithAttachment(f, att)) <==> Alarming(f) || BadAttachment(att) {
      AttachmentIsAlarming(f, att);
    }
    forall f, link ensures Alarming(WithLink(f, link)) <==> Alarming(f) || BadLink(link) {
      LinkIsAlarming(f, link);
    }
    CheckedIsAlarming(a, email.attachments, |email.attachments|, WithAttachment, BadAttachment);
    CheckedIsAlarming(b, email.links, |email.links|, WithLink, BadLink);
    WordingIsAlarming(c, email);
    WordingIs(email);
  }

  /** Dangerous, unknown and safe, each in terms of the mail alone. */
  lemma StatusExactly(email: Email)
    ensures Assess(email).status ==
            if IsDangerous(email) then Dangerous else if IsUnclear(email) then Unknown else Safe
  {
    AlarmingIs(email);
    UnresolvedIs(email);
  }

  lemma AlarmingIs(email: Email)
    ensures IsDangerous(email) <==>
            email.scan in {Some(ScanMalicious), Some(ScanSuspicious)} || Alarming(Findings(email))
  {
    FindingsAreAlarming(email);
    AnyIn(email.attachments, BadAttachment);
    AnyIn(email.links, BadLink);
  }

  lemma UnresolvedIs(email: Email)
    ensures IsUnclear(email) <==>
            email.scan == Some(ScanErrored) || CountOf(email.attachments, |email.attachments|, Unresolved) > 0
  {
    CountedSome(email.attachments, |email.attachments|, Unresolved);
    AnyIn(email.attachments, Unresolved);
    assert forall att :: Unresolved(att) <==> NotKnown(att);
  }

  function Rank(s: Status): int { match s case Safe => 0 case Unknown => 1 case Dangerous => 2 }

  /** The same mail with more attachments and links, in any order and any number of times. */
  ghost predicate Extends(a: Email, b: Email)
  {
    && b == a.(attachments := b.attachments, links := b.links)
    && (forall att :: att in a.attachments ==> att in b.attachments)
    && (forall link :: link in a.links ==> link in b.links)
  }

  /** Adding attachments or links never makes a mail look safer. */
  lemma MoreIsNeverSafer(a: Email, b: Email)
    requires Extends(a, b)
    ensures Rank(Assess(a).status) <= Rank(Assess(b).status)
  {
    StatusExactly(a);
    StatusExactly(b);
    if a.attachments != [] {
      assert a.attachments[0] in b.attachments;
    }
    if a.links != [] {
      assert a.links[0] in b.links;
    }
  }

  /** So neither order nor repetition matters. */
  lemma OrderDoesNotMatter(a: Email, b: Email)
    requires b == a.(attachments := b.attachments, links := b.links)
    requires multiset(a.attachments) == multiset(b.attachments) && multiset(a.links) == multiset(b.links)
    ensures Assess(a).status == Assess(b).status
  {
    forall att ensures att in a.attachments <==> att in b.attachments {
      assert att in a.attachments <==> att in multiset(a.attachments);
      assert att in b.attachments <==> att in multiset(b.attachments);
    }
    forall link ensures link in a.links <==> link in b.links {
      assert link in a.links <==> link in multiset(a.links);
      assert link in b.links <==> link in multiset(b.links);
    }
    MoreIsNeverSafer(a, b);
    MoreIsNeverSafer(b, a);
  }

  /** A finding that is not bad on its own: wording that a link to elsewhere turns into phishing. */
  lemma WordingDependsOnLinks(email: Email, link: Link)
    requires !email.subjectHit && email.bodyHit && email.attachments == [] && email.links == []
    requires Foreign(link, SenderBase(email.sender)) && !BadLink(link) && !BadSender(email.sender) && email.scan.None?
    ensures Assess(email).status == Safe && Assess(email.(links := [link])).status == Dangerous
  {
    BareIsSafe(email);
    WordingWithLink(email.(links := [link]), link);
  }

  lemma BareIsSafe(email: Email)
    requires !email.subjectHit && email.attachments == [] && email.links == []
    requires !BadSender(email.sender) && email.scan.None?
    ensures Assess(email).status == Safe
  {
    StatusExactly(email);
  }

  lemma WordingWithLink(email: Email, link: Link)
    requires email.bodyHit && email.links == [link] && Foreign(link, SenderBase(email.sender))
    ensures Assess(email).status == Dangerous
  {
    StatusExactly(email);
    assert link in email.links;
    assert LeadsAway(email);
  }

  // ---------------------------------------------------------------------- reasons

  ghost predicate Distinct(reasons: seq<Reason>)
  {
    forall i, j :: 0 <= i < j < |reasons| ==> reasons[i] != reasons[j]
  }

  lemma {:induction false} UniqueIsDistinct(reasons: seq<Reason>, n: nat)
    requires n <= |reasons|
    ensures Distinct(Unique(reasons, n)) && (n > 0 ==> Unique(reasons, n) != [])
  {
    if n > 0 {
      UniqueIsDistinct(reasons, n - 1);
      var before, last := Unique(reasons, n - 1), reasons[n - 1];
      if last !in before {
        var all := before + [last];
        forall i, j | 0 <= i < j < |all| ensures all[i] != all[j] {
          assert before[i] in before;
        }
      }
    }
  }

  lemma {:induction false} AlarmingHasReason(findings: seq<Finding>, n: nat, i: nat)
    requires i < n <= |findings| && !findings[i].level.Info?
    ensures ReasonsUpTo(findings, n) != []
  {
    if i < n - 1 {
      AlarmingHasReason(findings, n - 1, i);
    }
  }

  lemma MadeOf(status: Status, reasons: seq<Reason>)
    ensures var made := MakeResult(status, reasons);
            && made.status == status && |made.reasons| <= 8 && Distinct(made.reasons)
            && (reasons != [] ==> made.reasons != [])
  {
    UniqueIsDistinct(reasons, |reasons|);
  }

  /** The reasons are at most eight, all different, and a mail that is not safe has at least one. */
  lemma ReasonsAreGiven(email: Email)
    ensures var result := Assess(email);
            |result.reasons| <= 8 && Distinct(result.reasons) && (!result.status.Safe? ==> result.reasons != [])
  {
    JudgeGivesReasons(email.scan, Findings(email), CountOf(email.attachments, |email.attachments|, Unresolved));
  }

  lemma JudgeGivesReasons(scan: Option<Scan>, findings: seq<Finding>, unresolved: nat)
    ensures var result := Judge(scan, findings, unresolved);
            |result.reasons| <= 8 && Distinct(result.reasons) && (!result.status.Safe? ==> result.reasons != [])
  {
    var reasons := ReasonsUpTo(findings, |findings|);
    if Alarming(findings) {
      var i :| 0 <= i < |findings| && !findings[i].level.Info?;
      AlarmingHasReason(findings, |findings|, i);
    }
    if scan == Some(ScanMalicious) || scan == Some(ScanSuspicious) {
      MadeOf(Dangerous, [ThreatReported] + reasons);
    } else if Alarming(findings) {
      MadeOf(Dangerous, reasons);
    } else if scan == Some(ScanErrored) {
      MadeOf(Unknown, reasons + [ScannerFailed]);
    } else if unresolved > 0 {
      MadeOf(Unknown, reasons + [NotVerified]);
    } else {
      MadeOf(Safe, reasons + [NoThreatReported]);
      MadeOf(Safe, reasons);
    }
  }

  // ------------------------------------------------------------ each finding, exactly

  /** A finding on the sender. */
  predicate OfSender(s: Sender, f: Finding)
  {
    match f.code
    case MissingSender => s.address == "" && f == Finding(Suspicious, MissingSender, "")
    case InvalidSender => s.address != "" && !s.valid && f == Finding(Suspicious, InvalidSender, "")
    case IpSender => s.address != "" && s.valid && s.ip && f == Finding(Suspicious, IpSender, "")
    case PunycodeSender => s.address != "" && s.valid && s.punycode && f == Finding(Suspicious, PunycodeSender, "")
    case SpoofedDisplayName =>
      s.address != "" && s.valid && s.spoofed && f == Finding(Suspicious, SpoofedDisplayName, s.address)
    case BrandImpersonation =>
      s.address != "" && s.valid && s.brandOnFreemail && f == Finding(Suspicious, BrandImpersonation, s.address)
    case _ => false
  }

  /** A finding on an attachment, about its cleaned name. */
  predicate OfAttachment(att: Attachment, f: Finding)
  {
    var clean := CleanName(att.filename);
    OfFile(f, clean, exists c :: c in att.filename && Hidden(c), ExtensionOf(clean) in DANGEROUS_EXTENSIONS,
           TypeOf(att) in DANGEROUS_CONTENT_TYPES, HasDoubleExtension(clean))
  }

  /** A finding on a link: it cannot be parsed, has another scheme, has no host, or else any of the others. */
  predicate OfLink(link: Link, f: Finding)
  {
    match f.code
    case MalformedUrl => link.Malformed? && f == Finding(Suspicious, MalformedUrl, "")
    case DangerousUrlScheme =>
      link.Parsed? && link.protocol !in {"http:", "https:"} &&
      f == Finding(Malicious, DangerousUrlScheme, link.protocol)
    case NoHost =>
      link.Parsed? && link.protocol in {"http:", "https:"} && link.host == "" && f == Finding(Suspicious, NoHost, "")
    case _ =>
      Reaches(link) &&
      OfHost(link, f, link.host in SHORTENERS || BaseDomain(link.host) in SHORTENERS, ExtensionOf(link.path))
  }

  /** A web link with a host. */
  predicate Reaches(link: Link) { link.Parsed? && link.protocol in {"http:", "https:"} && link.host != "" }

  predicate OfWording(email: Email, f: Finding)
  {
    (email.subjectHit || email.bodyHit) &&
    f == if BadWording(email) then Finding(Suspicious, PhishingWording, "") else Finding(Info, UrgencyWording, "")
  }

  /** What is found, in terms of the mail alone. */
  predicate IsFound(email: Email, f: Finding)
  {
    || OfSender(email.sender, f) || (exists att :: att in email.attachments && OfAttachment(att, f))
    || (exists link :: link in email.links && OfLink(link, f)) || OfWording(email, f)
  }

  lemma InAppend(found: seq<Finding>, condition: bool, g: Finding, f: Finding)
    ensures f in Append(found, condition, g) <==> f in found || (condition && f == g)
  {
  }

  lemma InWithSender(s: Sender, f: Finding)
    ensures f in WithSender([], s) <==> OfSender(s, f)
  {
    var none: seq<Finding> := [];
    var a := Append(none, s.ip, Finding(Suspicious, IpSender, ""));
    var b := Append(a, s.punycode, Finding(Suspicious, PunycodeSender, ""));
    var c := Append(b, s.spoofed, Finding(Suspicious, SpoofedDisplayName, s.address));
    InAppend(none, s.ip, Finding(Suspicious, IpSender, ""), f);
    InAppend(a, s.punycode, Finding(Suspicious, PunycodeSender, ""), f);
    InAppend(b, s.spoofed, Finding(Suspicious, SpoofedDisplayName, s.address), f);
    InAppend(c, s.brandOnFreemail, Finding(Suspicious, BrandImpersonation, s.address), f);
  }

  /** A finding on a file. */
  predicate OfFile(f: Finding, clean: string, obfuscated: bool, dangerous: bool, dangerousType: bool, double: bool)
  {
    f.level == Malicious && f.about == clean &&
    match f.code
    case ObfuscatedFilename => obfuscated
    case DangerousAttachment => dangerous
    case DangerousAttachmentType => dangerousType
    case DoubleExtension => double
    case _ => false
  }

  lemma InWithFile(found: seq<Finding>, f: Finding, clean: string, obfuscated: bool, dangerous: bool,
                   dangerousType: bool, double: bool)
    ensures f in WithFile(found, clean, obfuscated, dangerous, dangerousType, double) <==>
            f in found || OfFile(f, clean, obfuscated, dangerous, dangerousType, double)
  {
    var a := Append(found, obfuscated, Finding(Malicious, ObfuscatedFilename, clean));
    var b := Append(a, dangerous, Finding(Malicious, DangerousAttachment, clean));
    var c := Append(b, dangerousType, Finding(Malicious, DangerousAttachmentType, clean));
    InAppend(found, obfuscated, Finding(Malicious, ObfuscatedFilename, clean), f);
    InAppend(a, dangerous, Finding(Malicious, DangerousAttachment, clean), f);
    InAppend(b, dangerousType, Finding(Malicious, DangerousAttachmentType, clean), f);
    InAppend(c, double, Finding(Malicious, DoubleExtension, clean), f);
  }

  lemma InWithAttachment(found: seq<Finding>, att: Attachment, f: Finding)
    ensures f in WithAttachment(found, att) <==> f in found || OfAttachment(att, f)
  {
    var clean := CleanName(att.filename);
    InWithFile(found, f, clean, Obfuscated(att.filename), ExtensionOf(clean) in DANGEROUS_EXTENSIONS,
               TypeOf(att) in DANGEROUS_CONTENT_TYPES, HasDoubleExtension(clean));
    ObfuscatedIs(att.filename);
  }

  /** A finding on a link with a host. */
  predicate OfHost(link: Link, f: Finding, short: bool, ext: string)
    requires link.Parsed?
  {
    match f.code
    case UserinfoTrick => link.userinfo && f == Finding(Suspicious, UserinfoTrick, link.raw)
    case IpHost => link.ip && f == Finding(Suspicious, IpHost, link.host)
    case PunycodeHost => link.punycode && f == Finding(Suspicious, PunycodeHost, link.host)
    case ShortenedUrl => short && f == Finding(Suspicious, ShortenedUrl, link.host)
    case ExecutableDownload => ext in DANGEROUS_EXTENSIONS && f == Finding(Malicious, ExecutableDownload, ext)
    case _ => false
  }

  lemma InWithHost(found: seq<Finding>, link: Link, f: Finding, short: bool, ext: string)
    requires link.Parsed?
    ensures f in WithHost(found, link, short, ext) <==> f in found || OfHost(link, f, short, ext)
  {
    var a := Append(found, link.userinfo, Finding(Suspicious, UserinfoTrick, link.raw));
    var b := Append(a, link.ip, Finding(Suspicious, IpHost, link.host));
    var c := Append(b, link.punycode, Finding(Suspicious, PunycodeHost, link.host));
    var d := Append(c, short, Finding(Suspicious, ShortenedUrl, link.host));
    InAppend(found, link.userinfo, Finding(Suspicious, UserinfoTrick, link.raw), f);
    InAppend(a, link.ip, Finding(Suspicious, IpHost, link.host), f);
    InAppend(b, link.punycode, Finding(Suspicious, PunycodeHost, link.host), f);
    InAppend(c, short, Finding(Suspicious, ShortenedUrl, link.host), f);
    InAppend(d, ext in DANGEROUS_EXTENSIONS, Finding(Malicious, ExecutableDownload, ext), f);
  }

  lemma InWithLink(found: seq<Finding>, link: Link, f: Finding)
    ensures f in WithLink(found, link) <==> f in found || OfLink(link, f)
  {
    if Reaches(link) {
      InWithHost(found, link, f, IsShort(link.host), ExtensionOf(link.path));
    }
  }

  lemma {:induction false} InChecked<T(!new)>(found: seq<Finding>, xs: seq<T>, n: nat,
                                              check: (seq<Finding>, T) -> seq<Finding>, f: Finding, of: T -> bool)
    requires n <= |xs| && forall fs, x :: f in check(fs, x) <==> f in fs || of(x)
    ensures f in Checked(found, xs, n, check) <==> f in found || exists x :: x in xs[..n] && of(x)
  {
    if n > 0 {
      InChecked(found, xs, n - 1, check, f, of);
      assert xs[..n] == xs[..n - 1] + [xs[n - 1]];
      assert f in check(Checked(found, xs, n - 1, check), xs[n - 1]) <==>
             f in Checked(found, xs, n - 1, check) || of(xs[n - 1]);
    }
  }

  /** Exactly what is found is listed. */
  lemma FindingsAreExact(email: Email, f: Finding)
    ensures f in Findings(email) <==> IsFound(email, f)
  {
    var atts, links := email.attachments, email.links;
    var a := WithSender([], email.sender);
    var b := Checked(a, atts, |atts|, WithAttachment);
    InWithSender(email.sender, f);
    forall fs, att ensures f in WithAttachment(fs, att) <==> f in fs || OfAttachment(att, f) {
      InWithAttachment(fs, att, f);
    }
    forall fs, link ensures f in WithLink(fs, link) <==> f in fs || OfLink(link, f) {
      InWithLink(fs, link, f);
    }
    InChecked(a, atts, |atts|, WithAttachment, f, att => OfAttachment(att, f));
    InChecked(b, links, |links|, WithLink, f, link => OfLink(link, f));
    assert atts[..|atts|] == atts && links[..|links|] == links;
    WordingIs(email);
  }

  /** The sender comes first, then the attachments, the links, and the wording. */
  function Turn(code: Code): nat
  {
    match code
    case MissingSender => 0 case InvalidSender => 0 case IpSender => 0
    case PunycodeSender => 0 case SpoofedDisplayName => 0 case BrandImpersonation => 0
    case ObfuscatedFilename => 1 case DangerousAttachment => 1 case DangerousAttachmentType => 1
    case DoubleExtension => 1
    case PhishingWording => 3 case UrgencyWording => 3
    case _ => 2
  }

  ghost predicate InTurn(found: seq<Finding>, turn: nat)
  {
    && (forall i, j :: 0 <= i < j < |found| ==> Turn(found[i].code) <= Turn(found[j].code))
    && (forall i :: 0 <= i < |found| ==> Turn(found[i].code) <= turn)
  }

  lemma {:induction false} CheckedInTurn<T(!new)>(found: seq<Finding>, xs: seq<T>, n: nat,
                                                  check: (seq<Finding>, T) -> seq<Finding>, turn: nat)
    requires n <= |xs| && InTurn(found, turn)
    requires forall fs, x :: InTurn(fs, turn) ==> InTurn(check(fs, x), turn)
    ensures InTurn(Checked(found, xs, n, check), turn)
  {
    if n > 0 {
      CheckedInTurn(found, xs, n - 1, check, turn);
    }
  }

  lemma AppendInTurn(found: seq<Finding>, condition: bool, f: Finding, turn: nat)
    requires InTurn(found, turn) && Turn(f.code) == turn
    ensures InTurn(Append(found, condition, f), turn)
  {
  }

  lemma FileInTurn(found: seq<Finding>, clean: string, obfuscated: bool, dangerous: bool, dangerousType: bool,
                   double: bool)
    requires InTurn(found, 1)
    ensures InTurn(WithFile(found, clean, obfuscated, dangerous, dangerousType, double), 1)
  {
    var a := Append(found, obfuscated, Finding(Malicious, ObfuscatedFilename, clean));
    var b := Append(a, dangerous, Finding(Malicious, DangerousAttachment, clean));
    var c := Append(b, dangerousType, Finding(Malicious, DangerousAttachmentType, clean));
    AppendInTurn(found, obfuscated, Finding(Malicious, ObfuscatedFilename, clean), 1);
    AppendInTurn(a, dangerous, Finding(Malicious, DangerousAttachment, clean), 1);
    AppendInTurn(b, dangerousType, Finding(Malicious, DangerousAttachmentType, clean), 1);
    AppendInTurn(c, double, Finding(Malicious, DoubleExtension, clean), 1);
  }

  lemma AttachmentInTurn(found: seq<Finding>, att: Attachment)
    requires InTurn(found, 1)
    ensures InTurn(WithAttachment(found, att), 1)
  {
    var clean := CleanName(att.filename);
    FileInTurn(found, clean, Obfuscated(att.filename), ExtensionOf(clean) in DANGEROUS_EXTENSIONS,
               TypeOf(att) in DANGEROUS_CONTENT_TYPES, HasDoubleExtension(clean));
  }

  lemma HostInTurn(found: seq<Finding>, link: Link, short: bool, ext: string)
    requires InTurn(found, 2) && link.Parsed?
    ensures InTurn(WithHost(found, link, short, ext), 2)
  {
    var a := Append(found, link.userinfo, Finding(Suspicious, UserinfoTrick, link.raw));
    var b := Append(a, link.ip, Finding(Suspicious, IpHost, link.host));
    var c := Append(b, link.punycode, Finding(Suspicious, PunycodeHost, link.host));
    var d := Append(c, short, Finding(Suspicious, ShortenedUrl, link.host));
    AppendInTurn(found, link.userinfo, Finding(Suspicious, UserinfoTrick, link.raw), 2);
    AppendInTurn(a, link.ip, Finding(Suspicious, IpHost, link.host), 2);
    AppendInTurn(b, link.punycode, Finding(Suspicious, PunycodeHost, link.host), 2);
    AppendInTurn(c, short, Finding(Suspicious, ShortenedUrl, link.host), 2);
    AppendInTurn(d, ext in DANGEROUS_EXTENSIONS, Finding(Malicious, ExecutableDownload, ext), 2);
  }

  lemma LinkInTurn(found: seq<Finding>, link: Link)
    requires InTurn(found, 2)
    ensures InTurn(WithLink(found, link), 2)
  {
    if Reaches(link) {
      HostInTurn(found, link, IsShort(link.host), ExtensionOf(link.path));
    }
  }

  lemma SenderInTurn(s: Sender)
    ensures InTurn(WithSender([], s), 0)
  {
    var none: seq<Finding> := [];
    var a := Append(none, s.ip, Finding(Suspicious, IpSender, ""));
    var b := Append(a, s.punycode, Finding(Suspicious, PunycodeSender, ""));
    var c := Append(b, s.spoofed, Finding(Suspicious, SpoofedDisplayName, s.address));
    AppendInTurn(none, s.ip, Finding(Suspicious, IpSender, ""), 0);
    AppendInTurn(a, s.punycode, Finding(Suspicious, PunycodeSender, ""), 0);
    AppendInTurn(b, s.spoofed, Finding(Suspicious, SpoofedDisplayName, s.address), 0);
    AppendInTurn(c, s.brandOnFreemail, Finding(Suspicious, BrandImpersonation, s.address), 0);
  }

  lemma WordingInTurn(found: seq<Finding>, email: Email)
    requires InTurn(found, 2)
    ensures InTurn(WithWording(found, email), 3)
  {
  }

  lemma FindingsAreInTurn(email: Email)
    ensures InTurn(Findings(email), 3)
  {
    var a := WithSender([], email.sender);
    SenderInTurn(email.sender);
    forall fs, att | InTurn(fs, 1) ensures InTurn(WithAttachment(fs, att), 1) {
      AttachmentInTurn(fs, att);
    }
    CheckedInTurn(a, email.attachments, |email.attachments|, WithAttachment, 1);
    var b := Checked(a, email.attachments, |email.attachments|, WithAttachment);
    forall fs, link | InTurn(fs, 2) ensures InTurn(WithLink(fs, link), 2) {
      LinkInTurn(fs, link);
    }
    CheckedInTurn(b, email.links, |email.links|, WithLink, 2);
    WordingInTurn(Checked(b, email.links, |email.links|, WithLink), email);
  }

  /** What is given as a reason, if there is room: each finding but the mild one, and the word of the scanner. */
  predicate IsReason(email: Email, r: Reason)
  {
    match r
    case OfFinding(code, about) => exists level: Level :: !level.Info? && IsFound(email, Finding(level, code, about))
    case ThreatReported => email.scan in {Some(ScanMalicious), Some(ScanSuspicious)}
    case ScannerFailed => !IsDangerous(email) && email.scan == Some(ScanErrored)
    case NotVerified => !IsDangerous(email) && email.scan != Some(ScanErrored) && IsUnclear(email)
    case NoThreatReported => !IsDangerous(email) && !IsUnclear(email) && email.scan == Some(ScanClean)
  }

  lemma {:induction false} InReasons(findings: seq<Finding>, n: nat, r: Reason)
    requires n <= |findings|
    ensures r in ReasonsUpTo(findings, n) <==>
              r.OfFinding? && exists f :: f in findings[..n] && !f.level.Info? && f.code == r.code && f.about == r.about
  {
    if n > 0 {
      InReasons(findings, n - 1, r);
      assert findings[..n] == findings[..n - 1] + [findings[n - 1]];
    }
  }

  lemma {:induction false} InUnique(reasons: seq<Reason>, n: nat, r: Reason)
    requires n <= |reasons|
    ensures r in Unique(reasons, n) <==> r in reasons[..n]
  {
    if n > 0 {
      InUnique(reasons, n - 1, r);
      assert reasons[..n] == reasons[..n - 1] + [reasons[n - 1]];
      InUnique(reasons, n - 1, reasons[n - 1]);
    }
  }

  /** All of a result's reasons are from the list, and all of the list if there are fewer than eight. */
  lemma InMade(status: Status, reasons: seq<Reason>, r: Reason)
    ensures var made := MakeResult(status, reasons);
            (r in made.reasons ==> r in reasons) && (|made.reasons| < 8 && r in reasons ==> r in made.reasons)
  {
    InUnique(reasons, |reasons|, r);
    assert reasons[..|reasons|] == reasons;
  }

  /** The list a result is made of. */
  ghost function ReasonList(email: Email): seq<Reason>
  {
    var reasons := ReasonsUpTo(Findings(email), |Findings(email)|);
    if email.scan in {Some(ScanMalicious), Some(ScanSuspicious)} then [ThreatReported] + reasons
    else if IsDangerous(email) then reasons
    else if email.scan == Some(ScanErrored) then reasons + [ScannerFailed]
    else if IsUnclear(email) then reasons + [NotVerified]
    else if email.scan == Some(ScanClean) then reasons + [NoThreatReported] else reasons
  }

  lemma MadeOfList(email: Email)
    ensures Assess(email) == MakeResult(Assess(email).status, ReasonList(email))
  {
    AlarmingIs(email);
    UnresolvedIs(email);
  }

  /** Some finding of that code and subject is not mild. */
  lemma FoundReason(email: Email, code: Code, about: string)
    ensures OfFinding(code, about) in ReasonsUpTo(Findings(email), |Findings(email)|) <==>
              exists level: Level :: !level.Info? && IsFound(email, Finding(level, code, about))
  {
    var found := Findings(email);
    InReasons(found, |found|, OfFinding(code, about));
    assert found[..|found|] == found;
    assert forall f: Finding :: f.code == code && f.about == about ==> f == Finding(f.level, code, about);
    forall level: Level
      ensures Finding(level, code, about) in found <==> IsFound(email, Finding(level, code, about))
    {
      FindingsAreExact(email, Finding(level, code, about));
    }
  }

  lemma InReasonList(email: Email, r: Reason)
    ensures r in ReasonList(email) <==> IsReason(email, r)
  {
    if r.OfFinding? {
      FoundReason(email, r.code, r.about);
    } else {
      InReasons(Findings(email), |Findings(email)|, r);
    }
  }

  /** The reasons given are right, and with fewer than eight none is missing. */
  lemma ReasonsAreExact(email: Email, r: Reason)
    ensures var reasons := Assess(email).reasons;
            && (r in reasons ==> IsReason(email, r)) && (|reasons| < 8 && IsReason(email, r) ==> r in reasons)
  {
    MadeOfList(email);
    InMade(Assess(email).status, ReasonList(email), r);
    InReasonList(email, r);
  }

  // ------------------------------------------------------------------ the checks

  /** The list the checks share and push onto. */
  class FindingList {
    var items: seq<Finding>

    constructor ()
      ensures items == []
    {
      items := [];
    }

    method Push(f: Finding)
      modifies this
      ensures items == old(items) + [f]
    {
      items := items + [f];
    }
  }

  method CheckSender(s: Sender, findings: FindingList)
    modifies findings
    ensures findings.items == WithSender(old(findings.items), s)
  {
    if s.address == "" {
      findings.Push(Finding(Suspicious, MissingSender, ""));
      return;
    }
    if !s.valid {
      findings.Push(Finding(Suspicious, InvalidSender, ""));
      return;
    }
    if s.ip {
      findings.Push(Finding(Suspicious, IpSender, ""));
    }
    if s.punycode {
      findings.Push(Finding(Suspicious, PunycodeSender, ""));
    }
    if s.spoofed {
      findings.Push(Finding(Suspicious, SpoofedDisplayName, s.address));
    }
    if s.brandOnFreemail {
      findings.Push(Finding(Suspicious, BrandImpersonation, s.address));
    }
  }

  method CheckAttachment(att: Attachment, findings: FindingList) returns (unresolved: bool)
    modifies findings
    ensures findings.items == WithAttachment(old(findings.items), att)
    ensures unresolved == Unresolved(att)
  {
    var clean := CleanName(att.filename);
    var ext := ExtensionOf(clean);
    var contentType := TypeOf(att);
    if Obfuscated(att.filename) {
      findings.Push(Finding(Malicious, ObfuscatedFilename, clean));
    }
    if ext in DANGEROUS_EXTENSIONS {
      findings.Push(Finding(Malicious, DangerousAttachment, clean));
    }
    if contentType in DANGEROUS_CONTENT_TYPES {
      findings.Push(Finding(Malicious, DangerousAttachmentType, clean));
    }
    if '.' in clean && LastPart(clean) in DANGEROUS_EXTENSIONS && PartBefore(clean) in DECOY_EXTENSIONS {
      findings.Push(Finding(Malicious, DoubleExtension, clean));
    }
    unresolved := ext !in SAFE_EXTENSIONS && !SafeType(contentType);
  }

  method CheckLink(link: Link, findings: FindingList)
    modifies findings
    ensures findings.items == WithLink(old(findings.items), link)
  {
    if link.Malformed? {
      findings.Push(Finding(Suspicious, MalformedUrl, ""));
      return;
    }
    if link.protocol != "http:" && link.protocol != "https:" {
      findings.Push(Finding(Malicious, DangerousUrlScheme, link.protocol));
      return;
    }
    if link.host == "" {
      findings.Push(Finding(Suspicious, NoHost, ""));
      return;
    }
    if link.userinfo {
      findings.Push(Finding(Suspicious, UserinfoTrick, link.raw));
    }
    if link.ip {
      findings.Push(Finding(Suspicious, IpHost, link.host));
    }
    if link.punycode {
      findings.Push(Finding(Suspicious, PunycodeHost, link.host));
    }
    if BaseDomain(link.host) in SHORTENERS || link.host in SHORTENERS {
      findings.Push(Finding(Suspicious, ShortenedUrl, link.host));
    }
    var ext := ExtensionOf(link.path);
    if ext in DANGEROUS_EXTENSIONS {
      findings.Push(Finding(Malicious, ExecutableDownload, ext));
    }
  }

  method FindForeignLink(email: Email) returns (foreign: bool)
    ensures foreign == HasForeignLink(email)
  {
    var base := SenderBase(email.sender);
    if base == "" {
      return true;
    }
    for i := 0 to |email.links|
      invariant forall k :: 0 <= k < i ==> !Foreign(email.links[k], base)
    {
      if email.links[i].Malformed? || (email.links[i].host != "" && BaseDomain(email.links[i].host) != base) {
        assert Foreign(email.links[i], base);
        return true;
      }
    }
    foreign := false;
  }

  method CheckWording(email: Email, findings: FindingList)
    modifies findings
    ensures findings.items == WithWording(old(findings.items), email)
  {
    if !email.subjectHit && !email.bodyHit {
      return;
    }
    var hasLinks, attachments := |email.links| > 0, |email.attachments|;
    var escalated := false;
    if hasLinks || attachments > 0 {
      if email.subjectHit || attachments > 0 {
        escalated := true;
      } else {
        escalated := FindForeignLink(email);
      }
    }
    if escalated {
      findings.Push(Finding(Suspicious, PhishingWording, ""));
    } else {
      findings.Push(Finding(Info, UrgencyWording, ""));
    }
  }

  lemma CheckedNext<T>(found: seq<Finding>, xs: seq<T>, i: nat, check: (seq<Finding>, T) -> seq<Finding>)
    requires i < |xs|
    ensures Checked(found, xs, i + 1, check) == check(Checked(found, xs, i, check), xs[i])
  {
  }

  lemma CountNext<T>(xs: seq<T>, i: nat, test: T -> bool)
    requires i < |xs|
    ensures CountOf(xs, i + 1, test) == CountOf(xs, i, test) + (if test(xs[i]) then 1 else 0)
  {
  }

  method CheckAttachments(attachments: seq<Attachment>, findings: FindingList) returns (unresolved: nat)
    modifies findings
    ensures findings.items == Checked(old(findings.items), attachments, |attachments|, WithAttachment)
    ensures unresolved == CountOf(attachments, |attachments|, Unresolved)
  {
    unresolved := 0;
    for i := 0 to |attachments|
      invariant findings.items == Checked(old(findings.items), attachments, i, WithAttachment)
      invariant unresolved == CountOf(attachments, i, Unresolved)
    {
      var isUnresolved := CheckAttachment(attachments[i], findings);
      assert findings.items == Checked(old(findings.items), attachments, i + 1, WithAttachment) by {
        CheckedNext(old(findings.items), attachments, i, WithAttachment);
      }
      CountNext(attachments, i, Unresolved);
      if isUnresolved {
        unresolved := unresolved + 1;
      }
    }
  }

  method CheckLinks(links: seq<Link>, findings: FindingList)
    modifies findings
    ensures findings.items == Checked(old(findings.items), links, |links|, WithLink)
  {
    for i := 0 to |links|
      invariant findings.items == Checked(old(findings.items), links, i, WithLink)
    {
      CheckLink(links[i], findings);
    }
  }

  method AssessEmailSafety(email: Email) returns (result: Result)
    ensures result == Assess(email)
  {
    var findings := new FindingList();
    CheckSender(email.sender, findings);
    var unresolved := CheckAttachments(email.attachments, findings);
    CheckLinks(email.links, findings);
    CheckWording(email, findings);
    result := Judge(email.scan, findings.items, unresolved);
  }
}
