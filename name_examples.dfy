/** The conversions of `to_standard_param_name` that the test suite pins, each derived from
    the general lemmas about the two passes. */
module NameExamples {
  import Names

  /** The five conversions pinned by the test suite. */
  lemma StandardNameExamples()
    ensures Names.ToStandardParamName("CamelCase") == "camel_case"
    ensures Names.ToStandardParamName("HTTPResponse") == "http_response"
    ensures Names.ToStandardParamName("ICatsRepository") == "icats_repository"
    ensures Names.ToStandardParamName("Cat") == "cat"
    ensures Names.ToStandardParamName("UFO") == "ufo"
  {
    CamelCaseExample();
    HttpResponseExample();
    CatsRepositoryExample();
    CatExample();
    UfoExample();
  }

  lemma CamelCaseExample()
    ensures Names.ToStandardParamName("CamelCase") == "camel_case"
  {
    CamelCaseFirstPass();
    CamelCaseJoin();
    CamelCaseSecondPass();
    CamelCaseLowered();
    Names.ByPasses("CamelCase", "Camel_Case", "Camel_Case", "camel_case");
    assert "camel_case"[1] == 'a';
  }

  /** One match, at the `l` before `Case`. */
  lemma CamelCaseFirstPass()
    ensures Names.FirstCapFrom("CamelCase", 0) == "Camel" + "_" + "Case"
  {
    assert Names.LowerRunEnd("CamelCase", 7) == 9;
    Names.FirstCapOneMatch("CamelCase", 4, "Camel", "Case");
  }

  lemma CamelCaseJoin()
    ensures "Camel" + "_" + "Case" == "Camel_Case"
  {
  }

  lemma CamelCaseSecondPass()
    ensures Names.AllCapFrom("Camel_Case", 0) == "Camel_Case"
  {
    Names.AllCapUnchanged("Camel_Case");
  }

  lemma CamelCaseLowered()
    ensures Names.Lower("Camel_Case") == "camel_case"
  {
  }

  lemma HttpResponseExample()
    ensures Names.ToStandardParamName("HTTPResponse") == "http_response"
  {
    HttpResponseFirstPass();
    HttpResponseJoin();
    HttpResponseSecondPass();
    HttpResponseLowered();
    Names.ByPasses("HTTPResponse", "HTTP_Response", "HTTP_Response", "http_response");
    assert "http_response"[0] == 'h';
  }

  /** One match, at the `P` before `Response`: the acronym stays in one piece. */
  lemma HttpResponseFirstPass()
    ensures Names.FirstCapFrom("HTTPResponse", 0) == "HTTP" + "_" + "Response"
  {
    assert Names.LowerRunEnd("HTTPResponse", 6) == 12;
    Names.FirstCapOneMatch("HTTPResponse", 3, "HTTP", "Response");
  }

  lemma HttpResponseJoin()
    ensures "HTTP" + "_" + "Response" == "HTTP_Response"
  {
  }

  lemma HttpResponseSecondPass()
    ensures Names.AllCapFrom("HTTP_Response", 0) == "HTTP_Response"
  {
    Names.AllCapUnchanged("HTTP_Response");
  }

  lemma HttpResponseLowered()
    ensures Names.Lower("HTTP_Response") == "http_response"
  {
  }

  lemma CatsRepositoryExample()
    ensures Names.ToStandardParamName("ICatsRepository") == "icats_repository"
  {
    CatsRepositoryFirstPass();
    CatsRepositoryFirstJoin();
    CatsRepositorySecondPass();
    CatsRepositorySecondJoin();
    CatsRepositoryLowered();
    CatsRepositoryDropsUnderscore();
    Names.ByPasses("ICatsRepository", "I_CatsRepository", "I_Cats_Repository", "i_cats_repository");
  }

  /** One match, at the `I` before `Cats`. */
  lemma CatsRepositoryFirstPass()
    ensures Names.FirstCapFrom("ICatsRepository", 0) == "I" + "_" + "CatsRepository"
  {
    assert Names.LowerRunEnd("ICatsRepository", 3) == 5;
    Names.FirstCapOneMatch("ICatsRepository", 0, "I", "CatsRepository");
  }

  lemma CatsRepositoryFirstJoin()
    ensures "I" + "_" + "CatsRepository" == "I_CatsRepository"
  {
  }

  /** One match, at the `s` before `Repository`. */
  lemma CatsRepositorySecondPass()
    ensures Names.AllCapFrom("I_CatsRepository", 0) == "I_Cats" + "_" + "Repository"
  {
    Names.AllCapOneMatch("I_CatsRepository", 5, "I_Cats", "Repository");
  }

  lemma CatsRepositorySecondJoin()
    ensures "I_Cats" + "_" + "Repository" == "I_Cats_Repository"
  {
  }

  lemma CatsRepositoryLowered()
    ensures Names.Lower("I_Cats_Repository") == "i_cats_repository"
  {
  }

  lemma CatsRepositoryDropsUnderscore()
    ensures var v := "i_cats_repository"; Names.HasInterfacePrefix(v) && "i" + v[2..] == "icats_repository"
  {
  }

  lemma CatExample()
    ensures Names.ToStandardParamName("Cat") == "cat"
  {
    Names.FirstCapUnchanged("Cat");
    Names.AllCapUnchanged("Cat");
    Names.ByPasses("Cat", "Cat", "Cat", "cat");
    assert "cat"[1] == 'a';
  }

  lemma UfoExample()
    ensures Names.ToStandardParamName("UFO") == "ufo"
  {
    Names.FirstCapUnchanged("UFO");
    Names.AllCapUnchanged("UFO");
    Names.ByPasses("UFO", "UFO", "UFO", "ufo");
    assert "ufo"[0] == 'u';
  }

  /** The snake_case name under which `get('cats_controller')` finds `CatsController`. */
  lemma CatsControllerExample()
    ensures Names.ToStandardParamName("CatsController") == "cats_controller"
  {
    CatsControllerFirstPass();
    CatsControllerJoin();
    CatsControllerSecondPass();
    CatsControllerLowered();
    Names.ByPasses("CatsController", "Cats_Controller", "Cats_Controller", "cats_controller");
    assert "cats_controller"[1] == 'a';
  }

  /** The same conversion, stated for any string equal to the class name. */
  lemma CatsControllerName(name: string)
    requires name == "CatsController"
    ensures Names.ToStandardParamName(name) == "cats_controller"
  {
    CatsControllerExample();
  }

  /** One match, at the `s` before `Controller`. */
  lemma CatsControllerFirstPass()
    ensures Names.FirstCapFrom("CatsController", 0) == "Cats" + "_" + "Controller"
  {
    assert Names.LowerRunEnd("CatsController", 6) == 14;
    Names.FirstCapOneMatch("CatsController", 3, "Cats", "Controller");
  }

  lemma CatsControllerJoin()
    ensures "Cats" + "_" + "Controller" == "Cats_Controller"
  {
  }

  lemma CatsControllerSecondPass()
    ensures Names.AllCapFrom("Cats_Controller", 0) == "Cats_Controller"
  {
    Names.AllCapUnchanged("Cats_Controller");
  }

  lemma CatsControllerLowered()
    ensures Names.Lower("Cats_Controller") == "cats_controller"
  {
  }
}
