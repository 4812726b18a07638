/** Units and declarations. Tokens that read as a program give the trees of its statements and no problems but
    its strays. On all others the parser is total: every method returns on every token list that
    ends in its end marker; the cursor never moves back or beyond the end; every turn of a loop
    consumes a token; and the noted problems stay within their limit. Dafny proves the return of
    each method from its `decreases` clause: the tokens left, then the rank of the method. */
module Parser {
  import opened Wrappers
  import opened Lexer
  import opened LexerGrammar
  import opened TokenLists
  import opened ParserCursor
  import opened ParserStatements
  import opened StatementGrammar
  import opened StatementReadings
  import Expressions

  predicate IsRoutine(word: string) {
    word == "procedure" || word == "function" || word == "constructor" || word == "destructor" || word == "operator"
  }

  predicate IsSection(word: string) {
    || word == "interface" || word == "implementation" || word == "initialization" || word == "finalization" || word == "type"
    || word == "const" || word == "resourcestring" || word == "var" || word == "threadvar" || word == "label" || word == "exports"
    || word == "uses" || word == "contains" || word == "requires" || word == "begin" || word == "end"
  }

  predicate IsVisibility(word: string) {
    word == "private" || word == "protected" || word == "public" || word == "published"
  }

  predicate IsDirective(word: string) {
    || word == "abstract" || word == "assembler" || word == "deprecated" || word == "external" || word == "final" || word == "forward"
    || word == "inline" || word == "overload" || word == "reintroduce" || word == "sealed" || word == "static" || word == "unsafe"
    || word == "noreturn"
  }

  predicate IsCallingConvention(word: string) {
    || word == "cdecl" || word == "msfastcall" || word == "pascal" || word == "register" || word == "safecall" || word == "softfloat"
    || word == "stdcall" || word == "syscall" || word == "vectorcall" || word == "winapi"
  }

  predicate IsAccessor(word: string) {
    word == "read" || word == "write" || word == "readonly" || word == "writeonly" || word == "add" || word == "remove"
  }

  predicate IsStorage(word: string) {
    word == "default" || word == "nodefault" || word == "stored"
  }

  const SPECIFIERS: set<string> := {
    "index", "dispid", "implements", "read", "write", "readonly", "writeonly", "add", "remove", "default", "nodefault", "stored"}

  predicate AtRoutine(c: Cursor)
    requires c.Valid()
    ensures AtRoutine(c) ==> !c.AtEnd()
    reads c
  {
    IsRoutine(c.Word()) || (c.AtWord("class") && IsRoutine(c.Word(1)))
  }

  // ----- pieces of declarations -----

  method ParseTypeReference(c: Cursor, stops: set<string>)
    requires c.Valid()
    modifies c
    ensures c.Ahead(old(c.index), old(c.problems)) && c.problems == old(c.problems)
    ensures !old(c.AtEnd()) && old(c.Word()) !in stops ==> c.index > old(c.index)
  {
    var _ := c.CollectUntil(stops);
  }

  method ParseArrayType(c: Cursor)
    requires c.Valid()
    modifies c
    ensures c.Ahead(old(c.index), old(c.problems)) && c.problems == old(c.problems)
    ensures !old(c.AtEnd()) ==> c.index > old(c.index)
  {
    var _ := c.Advance();
    var bounded := c.Accept("[");
    if bounded {
      while !c.AtEnd() && !c.AtWord("]")
        invariant c.Ahead(old(c.index) + 1, old(c.problems)) && c.problems == old(c.problems)
        decreases c.Left()
      {
        var _ := c.CollectUntil({",", "]"});
        var _ := c.Accept(",");
      }
      var _ := c.Accept("]");
    }
    var _ := c.Accept("of");
    ParseTypeReference(c, {";", ")", ","});
  }

  method ParseTypeAnnotation(c: Cursor, stops: set<string>)
    requires c.Valid()
    modifies c
    ensures c.Ahead(old(c.index), old(c.problems)) && c.problems == old(c.problems)
  {
    var isSet := c.Accept("set");
    if isSet {
      var _ := c.Accept("of");
      ParseTypeReference(c, stops);
    } else if c.AtWord("array") {
      ParseArrayType(c);
    } else {
      ParseTypeReference(c, stops);
    }
  }

  method ParseTypeParameters(c: Cursor)
    requires c.Valid()
    modifies c
    ensures c.Ahead(old(c.index), old(c.problems))
  {
    var generic := c.Accept("<");
    if !generic {
      return;
    }
    while !c.AtEnd() && !c.AtWord(">")
      invariant c.Ahead(old(c.index), old(c.problems))
      decreases c.Left()
    {
      var before := c.index;
      var _ := c.CollectUntil({";", ">"});
      var _ := c.Accept(";");
      c.EnsureProgress(before);
    }
    var _ := c.Accept(">");
  }

  /** The trees of the parts between commas. */
  method ParseEach(values: seq<Tok>) {
    var parts := SplitTopLevel(values, ",");
    for k := 0 to |parts| {
      var _ := Expressions.MakeExpression(parts[k]);
    }
  }

  /** Names with commas between them. */
  method ParseNames(c: Cursor)
    requires c.Valid()
    modifies c
    ensures c.Ahead(old(c.index), old(c.problems)) && c.problems == old(c.problems)
    ensures old(c.AtName(0, true)) ==> c.index > old(c.index)
  {
    while c.AtName(0, true)
      invariant c.Ahead(old(c.index), old(c.problems)) && c.problems == old(c.problems)
      invariant old(c.AtName(0, true)) && !c.AtName(0, true) ==> c.index > old(c.index)
      decreases c.Left()
    {
      var _ := c.ReadName();
      var more := c.Accept(",");
      if !more {
        break;
      }
    }
  }

  method ParseNamedDeclaration(c: Cursor)
    requires c.Valid()
    modifies c
    ensures c.Ahead(old(c.index), old(c.problems))
    ensures old(c.AtName(0, true)) ==> c.index > old(c.index)
  {
    ParseNames(c);
    var typed := c.Accept(":");
    if !typed {
      c.Note("Expected ':' in declaration");
      c.ConsumeThrough(";");
      return;
    }
    ParseTypeAnnotation(c, {";", ")", "=", "absolute"});
    var initialized := c.Accept("=");
    if initialized {
      var _ := c.CollectUntil({";"});
    } else {
      var absolute := c.Accept("absolute");
      if absolute {
        var _ := c.CollectUntil({";"});
      }
    }
    var _ := c.Accept(";");
  }

  method ParseAttributes(c: Cursor)
    requires c.Valid()
    modifies c
    ensures c.Ahead(old(c.index), old(c.problems))
    ensures old(c.AtWord("[")) ==> c.index > old(c.index)
  {
    var bracket := c.Accept("[");
    while bracket
      invariant c.Ahead(old(c.index), old(c.problems))
      invariant old(c.AtWord("[")) ==> c.index > old(c.index)
      decreases c.Left(), bracket
    {
      ghost var turn := c.index;
      while !c.AtEnd() && !c.AtWord("]")
        invariant c.Ahead(old(c.index), old(c.problems)) && turn <= c.index
        invariant old(c.AtWord("[")) ==> c.index > old(c.index)
        decreases c.Left()
      {
        var before := c.index;
        var name := c.ReadQualifiedName(true);
        if c.index > before {
          var arguments := c.Accept("(");
          if arguments {
            var values := c.CollectUntil({")"});
            ParseEach(values);
            var _ := c.Accept(")");
          }
        } else {
          var _ := c.Advance();
        }
        var _ := c.Accept(",");
        c.EnsureProgress(before);
      }
      var _ := c.Accept("]");
      bracket := c.Accept("[");
    }
  }

  method ParseEnum(c: Cursor)
    requires c.Valid()
    modifies c
    ensures c.Ahead(old(c.index), old(c.problems))
  {
    var _ := c.Advance();
    while !c.AtEnd() && !c.AtWord(")")
      invariant c.Ahead(old(c.index), old(c.problems))
      decreases c.Left()
    {
      var before := c.index;
      var name := c.ReadName();
      if c.index > before {
        var valued := c.Accept("=");
        if valued {
          var values := c.CollectUntil({",", ")"});
          if |values| > 0 {
            var _ := Expressions.MakeExpression(values);
          } else {
            c.Note("Expected enum value after '='");
          }
        }
      } else {
        var _ := c.Advance();
      }
      var _ := c.Accept(",");
      c.EnsureProgress(before);
    }
    var _ := c.Accept(")");
  }

  predicate IsModifier(word: string) {
    word == "const" || word == "var" || word == "out" || word == "constref"
  }

  method ParseParameters(c: Cursor)
    requires c.Valid()
    modifies c
    ensures c.Ahead(old(c.index), old(c.problems))
  {
    var _ := c.Advance();
    while !c.AtEnd() && !c.AtWord(")")
      invariant c.Ahead(old(c.index), old(c.problems))
      decreases c.Left()
    {
      var before := c.index;
      if IsModifier(c.Word()) {
        var _ := c.Advance();
      }
      ParseNames(c);
      var typed := c.Accept(":");
      if typed {
        ParseTypeAnnotation(c, {";", ")", "="});
      }
      var defaulted := c.Accept("=");
      if defaulted {
        var _ := c.CollectUntil({";", ")"});
      }
      var _ := c.Accept(";");
      c.EnsureProgress(before);
    }
    var _ := c.Accept(")");
  }

  method ParsePropertyParameters(c: Cursor)
    requires c.Valid()
    modifies c
    ensures c.Ahead(old(c.index), old(c.problems))
  {
    var _ := c.Advance();
    while !c.AtEnd() && !c.AtWord("]")
      invariant c.Ahead(old(c.index), old(c.problems))
      decreases c.Left()
    {
      var before := c.index;
      if IsModifier(c.Word()) {
        var _ := c.Advance();
      }
      ParseNames(c);
      var typed := c.Accept(":");
      if typed {
        ParseTypeReference(c, {";", "]", "="});
      }
      var defaulted := c.Accept("=");
      if defaulted {
        var values := c.CollectUntil({";", "]"});
        var _ := Expressions.MakeExpression(values);
      }
      var _ := c.Accept(";");
      c.EnsureProgress(before);
    }
    var _ := c.Accept("]");
  }

  method PropertyExpression(c: Cursor)
    requires c.Valid()
    modifies c
    ensures c.Ahead(old(c.index), old(c.problems)) && c.problems == old(c.problems)
  {
    var values := c.CollectUntil({";"} + SPECIFIERS);
    var _ := Expressions.MakeExpression(values);
  }

  method ParseProperty(c: Cursor)
    requires c.Valid() && !c.AtEnd()
    modifies c
    ensures c.Ahead(old(c.index) + 1, old(c.problems))
  {
    var _ := c.Advance();
    var _ := c.ReadName();
    if c.AtWord("[") {
      ParsePropertyParameters(c);
    }
    var typed := c.Accept(":");
    if typed {
      ParseTypeReference(c, {";"} + SPECIFIERS);
    }
    while !c.AtEnd()
      invariant c.Ahead(old(c.index) + 1, old(c.problems))
      decreases c.Left()
    {
      if c.AtWord(";") {
        var _ := c.Advance();
        if c.Word() !in SPECIFIERS {
          break;
        }
      } else {
        ParseSpecifier(c);
      }
    }
  }

  /** One specifier of a property; it consumes a token. */
  method ParseSpecifier(c: Cursor)
    requires c.Valid() && !c.AtEnd() && !c.AtWord(";")
    modifies c
    ensures c.Ahead(old(c.index) + 1, old(c.problems))
  {
    var before := c.index;
    var word := c.Word();
    if word == "index" || word == "dispid" || word == "implements" {
      var _ := c.Advance();
      PropertyExpression(c);
    } else if IsAccessor(word) {
      var _ := c.Advance();
      if word != "readonly" && word != "writeonly" {
        PropertyExpression(c);
      }
    } else if IsStorage(word) {
      var _ := c.Advance();
      if word != "nodefault" && !c.AtWord(";") {
        PropertyExpression(c);
      }
    } else {
      c.Note("Unsupported property specifier");
      var _ := c.CollectUntil({";"});
    }
    c.EnsureProgress(before);
  }

  /** The directives behind a routine's heading; tells whether one of them stands for a body. */
  method ParseMethodDirectives(c: Cursor) returns (bodiless: bool)
    requires c.Valid()
    modifies c
    ensures c.Ahead(old(c.index), old(c.problems)) && c.problems == old(c.problems)
  {
    bodiless := false;
    while !c.AtEnd()
      invariant c.Ahead(old(c.index), old(c.problems)) && c.problems == old(c.problems)
      decreases c.Left()
    {
      var word := c.Word();
      if IsDirective(word) {
        var _ := c.Advance();
        if word == "deprecated" && c.Peek(0).kind == StringToken {
          var _ := c.Advance();
        }
        bodiless := bodiless || word == "abstract" || word == "external" || word == "forward";
        if word == "external" {
          var _ := c.CollectUntil({";"});
        }
      } else if word == "virtual" || word == "dynamic" || word == "override" || IsCallingConvention(word) {
        var _ := c.Advance();
      } else if word == "message" || word == "dispid" {
        var _ := c.Advance();
        var values := c.CollectUntil({";"});
        var _ := Expressions.MakeExpression(values);
      } else if word == "experimental" || word == "platform" || word == "library" {
        var _ := c.Advance();
      } else {
        break;
      }
      var _ := c.Accept(";");
    }
  }

  // ----- sections -----

  method ParseDependencies(c: Cursor)
    requires c.Valid() && !c.AtEnd()
    modifies c
    ensures c.Ahead(old(c.index) + 1, old(c.problems))
  {
    var _ := c.Advance();
    while !c.AtEnd() && !c.AtWord(";")
      invariant c.Ahead(old(c.index) + 1, old(c.problems))
      decreases c.Left()
    {
      ParseDependency(c);
    }
    var _ := c.Accept(";");
  }

  /** One unit of the clause, with the comma behind it. */
  method ParseDependency(c: Cursor)
    requires c.Valid() && !c.AtEnd()
    modifies c
    ensures c.Ahead(old(c.index) + 1, old(c.problems))
  {
    var before := c.index;
    var _ := c.ReadQualifiedName(false);
    var named := c.index > before;
    if named {
      var located := c.Accept("in");
      if located {
        var _ := c.Advance();
      }
    } else {
      var _ := c.Advance();
    }
    var separated := c.Accept(",");
    if !separated && !c.AtWord(";") && named {
      c.Note("Expected ',' or ';' in dependency clause");
    }
    c.EnsureProgress(before);
  }

  method ParseExports(c: Cursor)
    requires c.Valid() && !c.AtEnd()
    modifies c
    ensures c.Ahead(old(c.index) + 1, old(c.problems))
  {
    var _ := c.Advance();
    while !c.AtEnd() && !c.AtWord(";")
      invariant c.Ahead(old(c.index) + 1, old(c.problems))
      decreases c.Left()
    {
      var before := c.index;
      var _ := c.ReadQualifiedName(true);
      if c.index > before {
        if c.AtWord("name") || c.AtWord("index") || c.AtWord("resident") {
          var _ := c.CollectUntil({",", ";"});
        }
      } else {
        var _ := c.Advance();
      }
      var _ := c.Accept(",");
      c.EnsureProgress(before);
    }
    var _ := c.Accept(";");
  }

  method ParseConstants(c: Cursor)
    requires c.Valid() && !c.AtEnd()
    modifies c
    ensures c.Ahead(old(c.index) + 1, old(c.problems))
    ensures c.AtEnd() || IsSection(c.Word()) || IsRoutine(c.Word())
  {
    var _ := c.Advance();
    while !c.AtEnd() && !IsSection(c.Word()) && !IsRoutine(c.Word())
      invariant c.Ahead(old(c.index) + 1, old(c.problems))
      decreases c.Left()
    {
      var before := c.index;
      var _ := c.ReadName();
      if c.index == before {
        var _ := c.Advance();
      } else {
        var typed := c.Accept(":");
        if typed {
          ParseTypeAnnotation(c, {"=", ";"});
        }
        var valued := c.Accept("=");
        if valued {
          var values := c.CollectUntil({";"}, true, Some(256));
          var _ := Expressions.MakeExpression(values);
        }
        c.ConsumeThrough(";");
      }
      c.EnsureProgress(before);
    }
  }

  method ParseVariables(c: Cursor)
    requires c.Valid() && !c.AtEnd()
    modifies c
    ensures c.Ahead(old(c.index) + 1, old(c.problems))
    ensures c.AtEnd() || IsSection(c.Word()) || IsRoutine(c.Word())
  {
    var _ := c.Advance();
    while !c.AtEnd() && !IsSection(c.Word()) && !IsRoutine(c.Word())
      invariant c.Ahead(old(c.index) + 1, old(c.problems))
      decreases c.Left()
    {
      var before := c.index;
      if !c.AtName(0, true) {
        var _ := c.Advance();
      } else {
        ParseNamedDeclaration(c);
      }
      c.EnsureProgress(before);
    }
  }

  // ----- types and routines -----

  method ParseTypeSection(c: Cursor)
    requires c.Valid() && !c.AtEnd()
    modifies c
    ensures c.Ahead(old(c.index) + 1, old(c.problems))
    ensures c.AtEnd() || IsSection(c.Word()) || IsRoutine(c.Word())
    decreases c.Left(), 0
  {
    var _ := c.Advance();
    while !c.AtEnd() && !IsSection(c.Word()) && !IsRoutine(c.Word())
      invariant c.Ahead(old(c.index) + 1, old(c.problems))
      decreases c.Left()
    {
      var before := c.index;
      if !c.AtName(0, false) {
        c.Note("Expected type declaration");
        c.ConsumeThrough(";");
      } else {
        var _ := c.ReadQualifiedName(true);
        ParseTypeParameters(c);
        var defined := c.Accept("=");
        if !defined {
          c.Note("Expected '=' after type");
          c.ConsumeThrough(";");
        } else {
          ParseType(c);
          ParseTypeDirectives(c);
          var _ := c.Accept(";");
        }
      }
      c.EnsureProgress(before);
    }
  }

  method ParseTypeDirectives(c: Cursor)
    requires c.Valid()
    modifies c
    ensures c.Ahead(old(c.index), old(c.problems)) && c.problems == old(c.problems)
  {
    var aligned := c.Accept("align");
    if aligned && c.Peek(0).kind == NumberToken {
      var _ := c.Advance();
    }
    while c.AtWord("deprecated") || c.AtWord("experimental") || c.AtWord("platform") || c.AtWord("library")
      invariant c.Ahead(old(c.index), old(c.problems)) && c.problems == old(c.problems)
      decreases c.Left()
    {
      var deprecated := c.AtWord("deprecated");
      var _ := c.Advance();
      if deprecated && c.Peek(0).kind == StringToken {
        var _ := c.Advance();
      }
    }
  }

  method ParseType(c: Cursor)
    requires c.Valid()
    modifies c
    ensures c.Ahead(old(c.index), old(c.problems))
    decreases c.Left(), 3
  {
    var _ := c.Accept("packed");
    var kind := c.Word();
    if IsStructured(kind) {
      ParseStructuredType(c, kind);
    } else if c.AtWord("(") {
      ParseEnum(c);
    } else if kind == "set" {
      var _ := c.Advance();
      var _ := c.Accept("of");
      ParseTypeReference(c, {";", ")"});
    } else if kind == "array" {
      ParseArrayType(c);
    } else if IsRoutine(kind) {
      ParseProceduralType(c, kind);
    } else if c.AtWord("^") {
      var _ := c.Advance();
      ParseTypeReference(c, {";", ")"});
    } else {
      ParseTypeReference(c, {";"});
    }
  }

  method ParseProceduralType(c: Cursor, kind: string)
    requires c.Valid()
    modifies c
    ensures c.Ahead(old(c.index), old(c.problems))
  {
    var _ := c.Advance();
    if c.AtWord("(") {
      ParseParameters(c);
    }
    if kind == "function" {
      var typed := c.Accept(":");
      if typed {
        ParseTypeReference(c, {";"});
      }
    }
  }

  method ParseStructuredType(c: Cursor, kind: string)
    requires c.Valid() && !c.AtEnd()
    modifies c
    ensures c.Ahead(old(c.index) + 1, old(c.problems))
    decreases c.Left(), 0
  {
    var _ := c.Advance();
    var reference := false;
    if kind == "class" {
      reference := c.Accept("of");
    }
    if reference {
      ParseTypeReference(c, {";"});
    } else {
      var helper := false;
      if kind == "class" {
        helper := c.Accept("helper");
      }
      if helper {
        var _ := c.Accept("for");
        var _ := c.ReadQualifiedName(true);
      }
      var _ := c.Accept("abstract");
      ParseBaseTypes(c);
      if !c.AtWord(";") {
        ParseTypeBody(c);
      }
    }
  }

  method ParseBaseTypes(c: Cursor)
    requires c.Valid()
    modifies c
    ensures c.Ahead(old(c.index), old(c.problems)) && c.problems == old(c.problems)
  {
    var based := c.Accept("(");
    if !based {
      return;
    }
    while !c.AtEnd() && !c.AtWord(")")
      invariant c.Ahead(old(c.index), old(c.problems)) && c.problems == old(c.problems)
      decreases c.Left()
    {
      ParseTypeReference(c, {",", ")"});
      var more := c.Accept(",");
      if !more {
        break;
      }
    }
    var _ := c.Accept(")");
  }

  method ParseTypeBody(c: Cursor)
    requires c.Valid()
    modifies c
    ensures c.Ahead(old(c.index), old(c.problems))
    decreases c.Left(), 2
  {
    while !c.AtEnd() && !c.AtWord("end") && !c.AtWord("of") && !c.AtWord("helper")
      invariant c.Ahead(old(c.index), old(c.problems))
      decreases c.Left()
    {
      var before := c.index;
      ParseMember(c);
      c.EnsureProgress(before);
    }
    var _ := c.Accept("end");
  }

  method ParseMember(c: Cursor)
    requires c.Valid() && !c.AtEnd()
    modifies c
    ensures c.Ahead(old(c.index), old(c.problems))
    decreases c.Left(), 1
  {
    var word := c.Word();
    if word == "strict" && (c.Word(1) == "private" || c.Word(1) == "protected") {
      var _ := c.Advance();
      var _ := c.Advance();
    } else if IsVisibility(word) {
      var _ := c.Advance();
    } else if word == "type" {
      ParseTypeSection(c);
    } else if word == "case" {
      ParseVariantPart(c);
    } else if AtRoutine(c) {
      ParseRoutine(c, false);
    } else if word == "property" {
      ParseProperty(c);
    } else if word == "class" && c.Word(1) == "property" {
      var _ := c.Advance();
      ParseProperty(c);
    } else if c.AtWord("[") && c.Peek(1).kind == StringToken {
      var _ := c.Advance();
      var _ := c.Advance();
      var _ := c.Accept("]");
    } else if c.AtWord("[") {
      ParseAttributes(c);
      if c.AtName(0, true) {
        ParseNamedDeclaration(c);
      }
    } else if c.AtName(0, true) {
      ParseNamedDeclaration(c);
    } else {
      if c.Peek(0).kind == Unknown {
        c.Note("Unsupported type member token");
      }
      var _ := c.Advance();
    }
  }

  method ParseVariantPart(c: Cursor)
    requires c.Valid() && !c.AtEnd()
    modifies c
    ensures c.Ahead(old(c.index) + 1, old(c.problems))
    decreases c.Left(), 0
  {
    var _ := c.Advance();
    var _ := c.CollectUntil({"of"});
    var _ := c.Accept("of");
    while !c.AtEnd() && !c.AtWord("end")
      invariant c.Ahead(old(c.index) + 1, old(c.problems))
      decreases c.Left()
    {
      var before := c.index;
      var labels := c.CollectUntil({":", ";", "end"});
      if |labels| == 0 {
        var _ := c.Accept(";");
      } else {
        ParseEach(labels);
        var _ := c.Accept(":");
        var fields := c.Accept("(");
        if fields {
          ParseVariantFields(c);
          var _ := c.Accept(")");
        }
        var _ := c.Accept(";");
      }
      c.EnsureProgress(before);
    }
  }

  method ParseVariantFields(c: Cursor)
    requires c.Valid()
    modifies c
    ensures c.Ahead(old(c.index), old(c.problems))
    decreases c.Left(), 2
  {
    while !c.AtEnd() && !c.AtWord(")")
      invariant c.Ahead(old(c.index), old(c.problems))
      decreases c.Left()
    {
      var before := c.index;
      if c.AtWord("[") {
        ParseAttributes(c);
      }
      if c.AtWord("case") {
        ParseVariantPart(c);
      } else if c.AtName(0, true) {
        ParseNamedDeclaration(c);
      } else {
        var _ := c.Advance();
      }
      var _ := c.Accept(";");
      c.EnsureProgress(before);
    }
  }

  predicate AtLocal(c: Cursor)
    requires c.Valid()
    ensures AtLocal(c) ==> !c.AtEnd()
    reads c
  {
    c.AtWord("label") || c.AtWord("const") || c.AtWord("type") || c.AtWord("var") || c.AtWord("threadvar") || AtRoutine(c)
  }

  method ParseRoutine(c: Cursor, parseBody: bool)
    requires c.Valid() && !c.AtEnd()
    modifies c
    ensures c.Ahead(old(c.index) + 1, old(c.problems))
    decreases c.Left(), 0
  {
    if c.AtWord("class") {
      var _ := c.Advance();
    }
    var kind := c.Advance();
    var resolved := ParseHeading(c, kind.word);
    if resolved {
      return;
    }
    var _ := c.Accept(";");
    var bodiless := ParseMethodDirectives(c);
    if !parseBody || bodiless {
      return;
    }
    while AtLocal(c)
      invariant c.Ahead(old(c.index) + 1, old(c.problems))
      decreases c.Left()
    {
      ParseLocal(c);
    }
    ParseBody(c);
  }

  /** One local declaration of a routine. */
  method ParseLocal(c: Cursor)
    requires c.Valid() && AtLocal(c)
    modifies c
    ensures c.Ahead(old(c.index) + 1, old(c.problems))
    decreases c.Left(), 1
  {
    if c.AtWord("var") || c.AtWord("threadvar") {
      ParseVariables(c);
    } else if c.AtWord("const") {
      ParseConstants(c);
    } else if c.AtWord("type") {
      ParseTypeSection(c);
    } else if AtRoutine(c) {
      ParseRoutine(c, true);
    } else {
      c.ConsumeThrough(";");
    }
  }

  /** The heading of a routine; tells whether it resolves an interface's method. */
  method ParseHeading(c: Cursor, kind: string) returns (resolved: bool)
    requires c.Valid()
    modifies c
    ensures c.Ahead(old(c.index), old(c.problems))
  {
    var _ := c.ReadRoutineName();
    ParseTypeParameters(c);
    if c.AtWord("(") {
      ParseParameters(c);
    }
    if kind == "function" || kind == "operator" {
      var typed := c.Accept(":");
      if typed {
        ParseTypeReference(c, {";"});
      }
    }
    resolved := c.Accept("=");
    if resolved {
      var _ := c.ReadRoutineName();
      c.ConsumeThrough(";");
    }
  }

  method ParseBody(c: Cursor)
    requires c.Valid()
    modifies c
    ensures c.Ahead(old(c.index), old(c.problems))
  {
    if c.AtWord("begin") {
      var _ := ParseBeginBlock(c, Done);
      var _ := c.Accept(";");
    } else if c.AtWord("asm") {
      var _ := c.Advance();
      c.Synchronize(ENDS);
      var _ := c.Accept("end");
      var _ := c.Accept(";");
    }
  }

  // ----- units -----

  predicate StartsModule(word: string) {
    word == "unit" || word == "program" || word == "library" || word == "package"
  }

  /** A header from `i` to its semicolon at `h`. */
  ghost predicate IsHeader(ts: seq<Tok>, i: nat, h: nat) {
    && i + 1 < h && h + 1 < |ts| && StartsModule(ts[i].word) && ts[i + 1].kind == Identifier
    && ts[h].word == ";" && ts[h].kind == Symbol
    && forall k :: i < k < h ==> ts[k].word != ";"
  }

  function DotAt(h: nat, body: List): nat {
    First(h) + Length(Compound(body))
  }

  /** A whole program: a header, a main block and a dot. */
  ghost predicate IsProgram(ts: seq<Tok>, h: nat, body: List) {
    var dot := DotAt(h, body);
    IsHeader(ts, 0, h) && Stands(ts, First(h), Compound(body)) && dot + 2 == |ts| && ts[dot].word == "." && ts[dot].kind == Symbol
  }

  method ParseHeader(c: Cursor, ghost h: nat)
    requires c.Valid()
    modifies c
    ensures c.Ahead(old(c.index), old(c.problems))
    ensures IsHeader(c.tokens, old(c.index), h) ==> c.index == h + 1 && c.problems == old(c.problems)
  {
    ghost var i := c.index;
    if StartsModule(c.Word()) {
      var _ := c.Advance();
      var before := c.index;
      var _ := c.ReadQualifiedName(false);
      if c.index == before {
        c.Note("Expected module name");
      }
      while !c.AtEnd() && !c.AtWord(";")
        invariant c.Ahead(old(c.index), old(c.problems))
        invariant IsHeader(c.tokens, i, h) ==> i < c.index <= h && c.problems == old(c.problems)
        decreases c.Left()
      {
        var deprecated := c.Accept("deprecated");
        if deprecated {
          if c.Peek(0).kind == StringToken {
            var _ := c.Advance();
          }
        } else {
          var experimental := c.Accept("experimental");
          if !experimental {
            var _ := c.Advance();
          }
        }
      }
      c.ConsumeThrough(";");
    } else {
      c.Note("Expected unit, program, library, or package header");
    }
  }

  /** What reading the main block does. */
  ghost predicate ReadsMain(ts: seq<Tok>, i: nat, body: List, before: seq<Problem>, index: nat, after: seq<Problem>, blocks: seq<Statement>) {
    Stands(ts, i, Compound(body)) ==>
      index == i + Length(Compound(body)) && Noticed(ts, before, after, StraysAll(First(i), body)) && blocks == [Block(Trees(ts, First(i), body))]
  }

  lemma {:induction false} MainIsRead(ts: seq<Tok>, i: nat, body: List, before: seq<Problem>, index: nat, after: seq<Problem>, tree: Option<Statement>)
    requires Reads(ts, i, Compound(body), before, index, after, tree)
    ensures ReadsMain(ts, i, body, before, index, after, Part(tree))
  {
  }

  predicate IsStray(ts: seq<Tok>, k: nat, problem: Problem) {
    k < |ts| && problem == Problem("Parser recovery forced forward progress", ts[k].line, ts[k].column)
  }

  /** The problems and the trees of a program whose statements start at `p`: each of the first 128 strays is
      noted at its place, and nothing else. */
  ghost predicate IsParsed(ts: seq<Tok>, p: nat, body: List, problems: seq<Problem>, blocks: seq<Statement>) {
    var strays := StraysAll(p, body);
    && blocks == [Block(Trees(ts, p, body))]
    && |problems| == (if |strays| <= 128 then |strays| else 128)
    && forall k :: 0 <= k < |problems| ==> IsStray(ts, strays[k], problems[k])
  }

  /** How far a program is parsed: to the main block, to the dot, or to the end. */
  ghost predicate Passed(ts: seq<Tok>, h: nat, body: List, index: nat, problems: seq<Problem>, blocks: seq<Statement>) {
    IsProgram(ts, h, body) ==>
      if index <= First(h) then index == First(h) && problems == [] && blocks == []
      else
        && (index == DotAt(h, body) || index == DotAt(h, body) + 1)
        && Noticed(ts, [], problems, StraysAll(First(First(h)), body)) && blocks == [Block(Trees(ts, First(First(h)), body))]
  }

  lemma {:induction false} ProgramIsParsed(ts: seq<Tok>, h: nat, body: List, problems: seq<Problem>, blocks: seq<Statement>)
    requires ts != [] && Passed(ts, h, body, |ts| - 1, problems, blocks)
    ensures IsProgram(ts, h, body) ==> IsParsed(ts, h + 2, body, problems, blocks)
  {
    if IsProgram(ts, h, body) {
      var p := h + 2;
      assert First(First(h)) == p;
      var strays := StraysAll(p, body);
      StraysAllWithin(p, body);
      assert [] + Marks(ts, strays) == Marks(ts, strays);
    }
  }

  lemma {:induction false} PartPassed(ts: seq<Tok>, h: nat, body: List, i: nat, before: seq<Problem>, blocks: seq<Statement>,
                                      index: nat, after: seq<Problem>, more: seq<Statement>)
    requires Passed(ts, h, body, i, before, blocks) && i + 1 < |ts| && ReadsMain(ts, i, body, before, index, after, more)
    requires ts[i].word == "." && ts[i].kind == Symbol ==> index == i + 1 && after == before && more == []
    ensures Passed(ts, h, body, index, after, blocks + more)
    ensures IsProgram(ts, h, body) ==> i < index
  {
    if IsProgram(ts, h, body) {
      if i <= First(h) {
        assert i == First(h) && index == DotAt(h, body) && [] + more == more;
      } else {
        assert i == DotAt(h, body) && index == i + 1 && blocks + [] == blocks;
      }
    }
  }

  /** The main block is read, and a dot is passed over. */
  method ParsePart(c: Cursor, ghost body: List) returns (blocks: seq<Statement>)
    requires c.Valid() && !c.AtEnd()
    modifies c
    ensures c.Ahead(old(c.index), old(c.problems))
    ensures ReadsMain(c.tokens, old(c.index), body, old(c.problems), c.index, c.problems, blocks)
    ensures old(c.Word() == "." && c.Peek(0).kind == Symbol) ==> c.index == old(c.index) + 1 && c.problems == old(c.problems) && blocks == []
  {
    var word := c.Word();
    blocks := [];
    if word == "interface" || word == "implementation" {
      var _ := c.Advance();
    } else if word == "initialization" {
      var _ := c.Advance();
      blocks := ParseStatements(c, {"finalization", "end"}, Done);
    } else if word == "finalization" {
      var _ := c.Advance();
      blocks := ParseStatements(c, ENDS, Done);
    } else if word == "uses" || word == "contains" || word == "requires" {
      ParseDependencies(c);
    } else if word == "type" {
      ParseTypeSection(c);
    } else if word == "const" || word == "resourcestring" {
      ParseConstants(c);
    } else if word == "var" || word == "threadvar" {
      ParseVariables(c);
    } else if word == "exports" {
      ParseExports(c);
    } else if AtRoutine(c) {
      ParseRoutine(c, true);
    } else if word == "begin" {
      var tree := ParseBeginBlock(c, body);
      MainIsRead(c.tokens, old(c.index), body, old(c.problems), c.index, c.problems, tree);
      blocks := Part(tree);
    } else {
      ParseLoose(c);
    }
  }

  /** The end of a section, or a token that starts nothing. */
  method ParseLoose(c: Cursor)
    requires c.Valid() && !c.AtEnd()
    modifies c
    ensures c.Ahead(old(c.index) + 1, old(c.problems))
    ensures old(c.Word() == "." && c.Peek(0).kind == Symbol) ==> c.index == old(c.index) + 1 && c.problems == old(c.problems)
  {
    if c.AtWord("end") {
      var _ := c.Advance();
      var _ := c.Accept(".");
      var _ := c.Accept(";");
    } else {
      if c.Peek(0).kind == Unknown {
        c.Note("Unsupported character");
      }
      var _ := c.Advance();
    }
  }

  /** The whole text is parsed to its end, and at most 128 problems are noted. If the tokens read as a program
      with the body, the trees of its statements come back, and the problems are its strays, the first 128 of
      them; so a body without strays has none. */
  method Parse(tokens: seq<Tok>, ghost h: nat, ghost body: List) returns (index: nat, problems: seq<Problem>, blocks: seq<Statement>)
    requires IsInput(tokens)
    ensures index == |tokens| - 1
    ensures |problems| <= MAX_PROBLEMS
    ensures IsProgram(tokens, h, body) ==> IsParsed(tokens, h + 2, body, problems, blocks)
  {
    var c := new Cursor(tokens);
    ParseHeader(c, h);
    NoticedNone(tokens, []);
    blocks := [];
    while !c.AtEnd()
      invariant c.Valid() && c.tokens == tokens
      invariant Passed(tokens, h, body, c.index, c.problems, blocks)
      decreases c.Left()
    {
      var before := c.index;
      ghost var noted := c.problems;
      var more := ParsePart(c, body);
      PartPassed(tokens, h, body, before, noted, blocks, c.index, c.problems, more);
      blocks := blocks + more;
      c.EnsureProgress(before);
    }
    index, problems := c.index, c.problems;
    ProgramIsParsed(tokens, h, body, problems, blocks);
  }

  /** Every text is lexed and parsed to its end. */
  method ParseText(a: Alphabet, text: string, ghost h: nat, ghost body: List)
    returns (tokens: seq<Tok>, index: nat, problems: seq<Problem>, blocks: seq<Statement>)
    requires Sane(a)
    ensures IsInput(tokens) && Expressions.Lexed(tokens)
    ensures index == |tokens| - 1 && tokens[index].start == |text|
    ensures |problems| <= MAX_PROBLEMS
    ensures IsProgram(tokens, h, body) ==> IsParsed(tokens, h + 2, body, problems, blocks)
  {
    var lexer := new SourceLexer(a, text);
    var all := lexer.Tokenize();
    LexerMakesInput(a, text, all);
    tokens := Significant(a, all);
    index, problems, blocks := Parse(tokens, h, body);
  }
}
