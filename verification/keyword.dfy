/** The simple server's `get_claude_recommendations`: no model is called;
    three entries of a fixed five-entry table are chosen by keywords found
    in the error text, ignoring case. */
module Keyword {

  import opened Text

  /** One canned recommendation (the simple server's dicts carry no id). */
  datatype Advice = Advice(description: string, confidence: real, solutionText: string)

  /** The fixed table, in the order the source lists it. */
  const Table: seq<Advice> := [
    Advice("Configuration Error: Missing environment variables", 0.9,
      "Check your environment variables:\n1. Verify all required ENV vars are set\n2. Check .env file syntax\n3. Restart the application after changes"),
    Advice("Dependency Conflict: Package version mismatch", 0.85,
      "Resolve dependency conflicts:\n1. Update package.json/requirements.txt\n2. Clear cache (npm ci / pip install --force-reinstall)\n3. Check for breaking changes in dependencies"),
    Advice("Build Error: Compilation failure", 0.8,
      "Fix build issues:\n1. Check for syntax errors in code\n2. Verify all imports are correct\n3. Ensure build tools are properly configured"),
    Advice("Network Error: Connection timeout", 0.75,
      "Network connectivity issues:\n1. Check firewall settings\n2. Verify network configuration\n3. Test connectivity to external services"),
    Advice("Permission Error: Access denied", 0.7,
      "Permission problems:\n1. Check file/directory permissions\n2. Verify user has required access\n3. Check SELinux/AppArmor policies if applicable")
  ]

  /** The keyword classes, in the priority the `if`/`elif` chain gives them. */
  datatype Category = NodeJs | Docker | Permission | Other

  /** The branch the `if`/`elif` chain takes for `text`. */
  function Classify(text: string): (c: Category)
    ensures c == NodeJs <==> Contains(Lower(text), "npm") || Contains(Lower(text), "node")
    ensures c == Docker ==> Contains(Lower(text), "docker")
    ensures c == Permission ==> Contains(Lower(text), "permission") && !Contains(Lower(text), "docker")
    ensures c == Other <==> NoKeyword(text)
  {
    var t := Lower(text);
    if Contains(t, "npm") || Contains(t, "node") then NodeJs
    else if Contains(t, "docker") then Docker
    else if Contains(t, "permission") then Permission
    else Other
  }

  /** None of the four keywords occurs in `text`, ignoring case. */
  predicate NoKeyword(text: string) {
    var t := Lower(text);
    !Contains(t, "npm") && !Contains(t, "node") && !Contains(t, "docker") && !Contains(t, "permission")
  }

  /** Table positions returned for each branch, in the returned order. */
  function Picks(c: Category): (p: seq<nat>)
    ensures |p| == 3 && p[0] != p[1] && p[1] != p[2] && p[0] != p[2]
    ensures forall i :: 0 <= i < 3 ==> p[i] < |Table|
  {
    match c
    case NodeJs => [1, 2, 0]
    case Docker => [2, 4, 3]
    case Permission => [4, 0, 3]
    case Other => [0, 1, 2]
  }

  /** The table holds five different entries. */
  lemma TableDistinct()
    ensures |Table| == 5
    ensures forall i, j :: 0 <= i < j < |Table| ==> Table[i] != Table[j]
  {
    assert Table[0].confidence == 0.9 && Table[1].confidence == 0.85 && Table[2].confidence == 0.8;
    assert Table[3].confidence == 0.75 && Table[4].confidence == 0.7;
  }

  /** `get_claude_recommendations(error_text)` of the simple server. */
  function Recommend(text: string): (r: seq<Advice>)
    ensures |r| == 3
    ensures forall i :: 0 <= i < 3 ==> r[i] in Table
    ensures r[0] != r[1] && r[1] != r[2] && r[0] != r[2]
    ensures forall i :: 0 <= i < 3 ==> r[i] == Table[Picks(Classify(text))[i]]
  {
    var p := Picks(Classify(text));
    TableDistinct();
    [Table[p[0]], Table[p[1]], Table[p[2]]]
  }

  /** Case does not matter: the text and its lower-cased form get the same
      recommendations. */
  lemma {:induction false} RecommendIgnoresCase(text: string)
    ensures Recommend(Lower(text)) == Recommend(text)
  {
    LowerIdempotent(text);
  }

  /** `npm` and `node` win over every other keyword. */
  lemma NodeJsFirst(text: string)
    requires Contains(Lower(text), "npm") || Contains(Lower(text), "node")
    ensures Recommend(text) == [Table[1], Table[2], Table[0]]
  {
  }

  /** `docker` wins over `permission`. */
  lemma DockerBeforePermission(text: string)
    requires !Contains(Lower(text), "npm") && !Contains(Lower(text), "node")
    requires Contains(Lower(text), "docker")
    ensures Recommend(text) == [Table[2], Table[4], Table[3]]
  {
  }

  /** `permission` alone picks the permission advice first. */
  lemma PermissionAlone(text: string)
    requires !Contains(Lower(text), "npm") && !Contains(Lower(text), "node")
    requires !Contains(Lower(text), "docker") && Contains(Lower(text), "permission")
    ensures Recommend(text) == [Table[4], Table[0], Table[3]]
  {
  }

  /** Without any keyword the first three table entries come back, in
      table order. */
  lemma NoKeywordFirstThree(text: string)
    requires NoKeyword(text)
    ensures Recommend(text) == Table[..3]
  {
  }

  /** Keyword found anywhere, in any case: "NPM ERR!" is treated as npm. */
  lemma {:induction false} UpperCaseKeywordFound(prefix: string, suffix: string)
    ensures Recommend(prefix + "NPM" + suffix) == [Table[1], Table[2], Table[0]]
  {
    var t := prefix + "NPM" + suffix;
    assert Lower(t)[|prefix|..|prefix| + 3] == "npm";
    assert OccursAt(Lower(t), "npm", |prefix|);
  }
}
