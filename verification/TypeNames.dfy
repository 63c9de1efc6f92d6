/** Type names from API group and resource name: cut to length, then normalised. */
module TypeNames {
  import opened Options

  const MAX_RELATION_LENGTH := 50

  /** Characters are the bytes of an ASCII string. */
  function LowerChar(c: char): char {
    if 'A' <= c <= 'Z' then c - 'A' + 'a' else c
  }

  function ToLower(s: string): (r: string)
    ensures |r| == |s| && forall i :: 0 <= i < |s| ==> r[i] == LowerChar(s[i])
  {
    seq(|s|, i requires 0 <= i < |s| => LowerChar(s[i]))
  }

  function ReplaceDots(s: string): (r: string)
    ensures |r| == |s| && forall i :: 0 <= i < |s| ==> r[i] == if s[i] == '.' then '_' else s[i]
  {
    seq(|s|, i requires 0 <= i < |s| => if s[i] == '.' then '_' else s[i])
  }

  function Joined(group: string, singular: string): string {
    group + "_" + singular
  }

  /** The longest relation that is built from a type name. */
  function CreateRelation(typeName: string): string {
    "create_" + typeName + "s"
  }

  /** The end of the joined name that leaves room for the relation; `None` is a slice that is
      out of range. */
  function CapGroupSingularLength(group: string, singular: string, maxLength: int): Option<string> {
    var groupSingular := Joined(group, singular);
    var maxRelation := CreateRelation(groupSingular);
    if |maxRelation| > maxLength && maxLength > 0 then
      var truncateLen := |maxRelation| - maxLength;
      if truncateLen <= |groupSingular| then Some(groupSingular[truncateLen..]) else None
    else Some(groupSingular)
  }

  function TrimUnderscore(s: string): string {
    if s != "" && s[0] == '_' then s[1..] else s
  }

  function OrCore(group: string): string {
    if group == "" then "core" else group
  }

  function ConvertToTypeName(group: string, singular: string): string {
    var capped := CapGroupSingularLength(OrCore(group), singular, MAX_RELATION_LENGTH);
    if capped.None? then "" else ToLower(ReplaceDots(TrimUnderscore(capped.value)))
  }

  // ---------------------------------------------------------------- laws

  /** The slice is in range exactly for a cap of at least 8, or none at all. */
  lemma CapInRangeExactlyWhen(group: string, singular: string, maxLength: int)
    ensures CapGroupSingularLength(group, singular, maxLength).Some? <==> maxLength <= 0 || maxLength >= 8
  {
    assert |Joined(group, singular)| >= 1;
  }

  /** The name before it is cut, normalised. */
  function FullName(group: string, singular: string): string {
    ToLower(ReplaceDots(Joined(OrCore(group), singular)))
  }

  /** How much of the full name is dropped by the cut. */
  function CutAt(group: string, singular: string): (k: nat)
    ensures k < |Joined(OrCore(group), singular)|
  {
    var n := |Joined(OrCore(group), singular)|;
    if n > 42 then n - 42 else 0
  }

  /** One more than the cut, when the cut uncovers an underscore. */
  function KeptFrom(group: string, singular: string): nat {
    var k := CutAt(group, singular);
    if Joined(OrCore(group), singular)[k] == '_' then k + 1 else k
  }

  lemma NameIsSuffix(group: string, singular: string)
    ensures KeptFrom(group, singular) < |FullName(group, singular)|
    ensures ConvertToTypeName(group, singular) == FullName(group, singular)[KeptFrom(group, singular)..]
  {
    var joined, k, from := Joined(OrCore(group), singular), CutAt(group, singular), KeptFrom(group, singular);
    assert |CreateRelation(joined)| == |joined| + 8;
    assert CapGroupSingularLength(OrCore(group), singular, MAX_RELATION_LENGTH) == Some(joined[k..]);
    assert |joined| >= 2 && joined[|OrCore(group)|] == '_';
    assert TrimUnderscore(joined[k..]) == joined[from..];
    NormalisingKeepsSuffixes(joined, from);
  }

  lemma NormalisingKeepsSuffixes(s: string, k: nat)
    requires k <= |s|
    ensures ToLower(ReplaceDots(s[k..])) == ToLower(ReplaceDots(s))[k..]
  {
  }

  lemma NormalisedCharacters(s: string)
    ensures var r := ToLower(ReplaceDots(s)); forall i :: 0 <= i < |r| ==> r[i] != '.' && !('A' <= r[i] <= 'Z')
  {
  }

  /** At most 42 characters and at least one, so that every relation built from the name has
      at most 50; no dot and no capital. */
  lemma TypeNameBound(group: string, singular: string)
    ensures var name := ConvertToTypeName(group, singular);
            && 1 <= |name| <= 42 && |CreateRelation(name)| <= MAX_RELATION_LENGTH
            && (forall i :: 0 <= i < |name| ==> name[i] != '.' && !('A' <= name[i] <= 'Z'))
  {
    NameIsSuffix(group, singular);
    var capped := CapGroupSingularLength(OrCore(group), singular, MAX_RELATION_LENGTH);
    CapInRangeExactlyWhen(OrCore(group), singular, MAX_RELATION_LENGTH);
    NormalisedCharacters(TrimUnderscore(capped.value));
    assert |CreateRelation(ConvertToTypeName(group, singular))| == |ConvertToTypeName(group, singular)| + 8;
  }

  /** The name is the end of the full name, and all of it when that fits and its group does
      not begin with an underscore; a cut takes no more than it has to, or one more. */
  lemma NameKeepsTheEnd(group: string, singular: string)
    ensures var name, full := ConvertToTypeName(group, singular), FullName(group, singular);
            && |name| <= |full| && name == full[|full| - |name|..]
            && (|full| <= 42 && OrCore(group)[0] != '_' ==> name == full)
            && (|full| > 42 ==> |name| >= 41)
  {
    NameIsSuffix(group, singular);
  }

  /** A leading underscore is taken off once, so one remains exactly when the character left
      in front, where the name is cut, was a dot or a second underscore. */
  lemma StartsWithUnderscoreExactlyWhen(group: string, singular: string)
    ensures ConvertToTypeName(group, singular)[..1] == "_" <==> UncoversUnderscore(group, singular)
  {
    NameIsSuffix(group, singular);
    var joined, name := Joined(OrCore(group), singular), ConvertToTypeName(group, singular);
    var from := KeptFrom(group, singular);
    assert name[0] == FullName(group, singular)[from] == LowerChar(ReplaceDots(joined)[from]);
    assert name[..1] == [name[0]];
  }

  predicate UncoversUnderscore(group: string, singular: string) {
    var joined, k := Joined(OrCore(group), singular), CutAt(group, singular);
    joined[k] == '.' || (joined[k] == '_' && k + 1 < |joined| && (joined[k + 1] == '.' || joined[k + 1] == '_'))
  }

  /** The cut may land on a dot. */
  lemma CutOnADot()
    ensures ConvertToTypeName("xx.platform-mesh-resource-definitions.io", "abc")[..1] == "_"
  {
    var group := "xx.platform-mesh-resource-definitions.io";
    assert |Joined(OrCore(group), "abc")| == 44;
    assert Joined(OrCore(group), "abc")[2] == '.';
    StartsWithUnderscoreExactlyWhen(group, "abc");
  }

  /** The same letter, whatever its case. */
  predicate SameLetter(c: char, d: char) {
    || c == d
    || ('A' <= c <= 'Z' && d as int == c as int + 32)
    || ('A' <= d <= 'Z' && c as int == d as int + 32)
  }

  /** Names are normalised alike exactly when they differ in the case of letters, or in dots
      where the other has an underscore, and in nothing else. */
  lemma NormalisedAlikeExactlyWhen(s: string, t: string)
    ensures ToLower(ReplaceDots(s)) == ToLower(ReplaceDots(t))
       <==> |s| == |t| && forall i :: 0 <= i < |s| ==>
              SameLetter(s[i], t[i]) || (s[i] in "._" && t[i] in "._")
  {
    var a, b := ToLower(ReplaceDots(s)), ToLower(ReplaceDots(t));
    if |s| == |t| {
      forall i | 0 <= i < |s|
        ensures a[i] == b[i] <==> SameLetter(s[i], t[i]) || (s[i] in "._" && t[i] in "._")
      {
        assert "._"[0] == '.' && "._"[1] == '_';
        LoweredAlike(s[i], t[i]);
      }
    }
  }

  lemma LoweredAlike(c: char, d: char)
    ensures LowerChar(c) == LowerChar(d) <==> SameLetter(c, d)
  {
  }

  /** Normalising brings in underscores and lower-case letters, nothing else. */
  lemma NormalisingBringsInNothing(s: string, c: char)
    requires c !in s && c != '_' && !('a' <= c <= 'z')
    ensures c !in ToLower(ReplaceDots(s))
  {
    forall i | 0 <= i < |s| ensures LowerChar(ReplaceDots(s)[i]) != c {
      assert s[i] in s;
    }
  }
}
