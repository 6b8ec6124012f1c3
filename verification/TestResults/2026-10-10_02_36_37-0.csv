TestResult.DisplayName,TestResult.Outcome,TestResult.Duration,TestResult.ResourceCount,RandomSeed
Login.LoginPersistsChoice (correctness),Passed,00:00:00.3831128,649424,0
SignUp.SignUpUser (well-formedness),Passed,00:00:00.3135187,202602,0
SignUp.DocumentIdIgnoresCase (well-formedness),Passed,00:00:00.2862130,158888,0
OrderHistory.SortIsSortedPermutation (correctness),Passed,00:00:00.2410286,384200,0
LoggedIn.SignedUpDocumentIsRead (well-formedness),Passed,00:00:00.2355353,186427,0
LoggedIn.SignedUpDocumentIsRead (correctness),Passed,00:00:00.2323804,255856,0
Collection.ToggleTwiceRestores (correctness),Passed,00:00:00.2304773,202733,0
Login.StayLoggedInRoundTrip (correctness),Passed,00:00:00.2078328,167433,0
LoggedIn.TabsOnlyForAcceptedUsers (correctness),Passed,00:00:00.2066514,63129,0
SignUp.SignedUpOnlyAfterAllSucceed (well-formedness),Passed,00:00:00.2023102,147596,0
OrderHistory.MapLineItem (well-formedness),Passed,00:00:00.2019180,94799,0
Collection.MergeSamePageTwice (correctness),Passed,00:00:00.1992065,97389,0
SaveForLater.MoveIgnoresAddOutcome (correctness),Passed,00:00:00.1978507,133822,0
Catalog.SelectVariant (well-formedness),Passed,00:00:00.1957073,92136,0
SignUp.SignedUpOnlyAfterAllSucceed (correctness),Passed,00:00:00.1898492,174343,0
SignUp.DocumentIdIgnoresCase (correctness),Passed,00:00:00.1811522,165618,0
Seqs.FilterKeepsAll (correctness),Passed,00:00:00.1790305,290998,0
LoggedIn.TabsOnlyForAcceptedUsers (well-formedness),Passed,00:00:00.1709729,58620,0
SaveForLater.MoveToCart (well-formedness),Passed,00:00:00.1692741,128621,0
CartManager.Step (well-formedness),Passed,00:00:00.1614352,92053,0
CartManager.CartResult (well-formedness),Passed,00:00:00.1601372,23551,0
Login.HandleAutoLogin (well-formedness),Passed,00:00:00.1538320,319919,0
OrderHistory.InsertPermutes (correctness),Passed,00:00:00.1401253,271697,0
CartManager.Run (well-formedness),Passed,00:00:00.1387992,77297,0
OrderHistory.FetchedOrdersAreSortedMapping (correctness),Passed,00:00:00.1367416,187463,0
Login.RememberChoice (well-formedness),Passed,00:00:00.1366984,254156,0
SaveForLater.KeepFromSingle (correctness),Passed,00:00:00.1356940,753101,0
Text.Lowercase (well-formedness),Passed,00:00:00.1353837,40750,0
OrderHistory.SortKeepsSorted (correctness),Passed,00:00:00.1314844,168511,0
Defaults.StringFor (well-formedness),Passed,00:00:00.1312919,25352,0
OrderHistory.FetchOrders (well-formedness),Passed,00:00:00.1300816,152054,0
OrderHistory.FetchedOrdersAreSortedMapping (well-formedness),Passed,00:00:00.1281088,175867,0
DeviceToken.TokenIsLowerHex (correctness),Passed,00:00:00.1274827,262813,0
Eula.PressAgree (well-formedness),Passed,00:00:00.1269346,12986,0
Eula.Toggle (well-formedness),Passed,00:00:00.1263446,5423,0
Catalog.AddButton (well-formedness),Passed,00:00:00.1262000,114560,0
Collection.MergeAppendsSublistOfPage (correctness),Passed,00:00:00.1186392,56029,0
Login.LoginUser (well-formedness),Passed,00:00:00.1147700,236928,0
Collection.MergeKeepsIdsDistinct (correctness),Passed,00:00:00.1143118,175709,0
CartView.WrittenGuardFails (correctness),Passed,00:00:00.1123482,148225,0
Collection.LoadGuardsSendOnce (correctness),Passed,00:00:00.1122526,96413,0
CartView.StepperRoundTrip (well-formedness),Passed,00:00:00.1120770,139871,0
Collection.SublistKeepsDistinct (correctness),Passed,00:00:00.1112506,160385,0
CartView.FixedStepKeepsGuard (correctness),Passed,00:00:00.1091411,210359,0
CartView.IdleIsGuarded (correctness),Passed,00:00:00.1064924,20563,0
OrderHistory.DisplayedOrders (well-formedness),Passed,00:00:00.1051208,117518,0
OrderHistory.MapOrder (well-formedness),Passed,00:00:00.1049722,183436,0
Text.NoAsciiUpper (well-formedness),Passed,00:00:00.1047622,9154,0
Defaults.PutThenRead (correctness),Passed,00:00:00.1013295,90764,0
SaveForLater.KeepFromFacts (correctness),Passed,00:00:00.1011980,157316,0
OrderHistory.ConsSorted (correctness),Passed,00:00:00.0963660,164863,0
CartManager.RunOnlyHoldsReturnedCarts (correctness),Passed,00:00:00.0931125,182107,0
UpdatePassword.UpdatedOnlyWhenAcceptable (correctness),Passed,00:00:00.0929613,101101,0
DeviceToken.DecodeOfTokenString (correctness),Passed,00:00:00.0914899,188820,0
UpdatePassword.UpdatePassword (well-formedness),Passed,00:00:00.0898127,115815,0
Seqs.DistinctBy (well-formedness),Passed,00:00:00.0873832,16486,0
OrderHistory.HeadBeforeInserted (correctness),Passed,00:00:00.0869473,52945,0
Collection.LoadMoreProducts (well-formedness),Passed,00:00:00.0857184,88873,0
Defaults.PutThenRead (well-formedness),Passed,00:00:00.0838527,38667,0
CartManager.LoginCustomer (well-formedness),Passed,00:00:00.0838257,68312,0
CartView.StepperRoundTrip (correctness),Passed,00:00:00.0824949,108272,0
DeviceToken.TokenString (well-formedness),Passed,00:00:00.0814932,431993,0
CartManager.InjectionReusesCache (correctness),Passed,00:00:00.0765629,88381,0
OrderHistory.NoTokenShowsNoOrders (correctness),Passed,00:00:00.0756980,138765,0
Text.TokensOfJoin (correctness),Passed,00:00:00.0749747,121132,0
Collection.ToggleFavorite (well-formedness),Passed,00:00:00.0741856,111381,0
Login.FailedAutoLoginIsNotRetried (correctness),Passed,00:00:00.0713737,122750,0
CartView.ScreenGuardFails (well-formedness),Passed,00:00:00.0703905,87437,0
Defaults.StringOr (well-formedness),Passed,00:00:00.0693766,32573,0
Seqs.FilterAppend (correctness),Passed,00:00:00.0693134,73126,0
UpdatePassword.UpdatedOnlyWhenAcceptable (well-formedness),Passed,00:00:00.0682572,86820,0
Collection.FinishLoad (well-formedness),Passed,00:00:00.0676880,64874,0
LoggedIn.CheckEulaAcceptance (well-formedness),Passed,00:00:00.0675769,67856,0
LoggedIn.FetchUserName (well-formedness),Passed,00:00:00.0645435,67417,0
LoggedIn.StoreEulaAcceptance (well-formedness),Passed,00:00:00.0640091,52764,0
OrderHistory.SortedTail (correctness),Passed,00:00:00.0629036,86427,0
LoggedIn.AgreeOpensTabs (correctness),Passed,00:00:00.0623475,61664,0
Collection.RowAppeared (well-formedness),Passed,00:00:00.0620324,119844,0
Catalog.PriceText (well-formedness),Passed,00:00:00.0614278,80899,0
Text.TokensOfWordThen (correctness),Passed,00:00:00.0610911,27500,0
CartManager.AddItem (well-formedness),Passed,00:00:00.0581770,60834,0
Seqs.FilterIsSublist (correctness),Passed,00:00:00.0575923,53026,0
Seqs.FirstIndexWhere (well-formedness),Passed,00:00:00.0575545,88659,0
LoggedIn.AgreeOnEulaScreen (well-formedness),Passed,00:00:00.0574816,57463,0
Catalog.PickedVariantIsSelected (correctness),Passed,00:00:00.0570385,93109,0
Defaults.Put (well-formedness),Passed,00:00:00.0565539,38862,0
Catalog.SelectedVariant (well-formedness),Passed,00:00:00.0563306,82455,0
LoggedIn.FetchUserNameKeepsGate (correctness),Passed,00:00:00.0560836,58051,0
Collection.FilteredProducts (well-formedness),Passed,00:00:00.0546890,77885,0
CartManager.UpdateQuantity (well-formedness),Passed,00:00:00.0546415,65739,0
Text.TokensOfWordThen (well-formedness),Passed,00:00:00.0541007,19285,0
CartView.ConfirmRemove (well-formedness),Passed,00:00:00.0538470,92923,0
Catalog.AppearSelectsFirstVariant (well-formedness),Passed,00:00:00.0535323,63375,0
CartManager.InjectRandomCartItem (well-formedness),Passed,00:00:00.0527225,97863,0
CartManager.LoginThenTokenReadable (correctness),Passed,00:00:00.0526976,65320,0
LoggedIn.AcceptedIn (well-formedness),Passed,00:00:00.0520098,31742,0
Collection.FilteredIsSublist (correctness),Passed,00:00:00.0519168,71771,0
Collection.LoadProducts (well-formedness),Passed,00:00:00.0518427,89465,0
Text.TokensSkipSpace (correctness),Passed,00:00:00.0506588,22813,0
CartManager.UpdateWithoutCartIsCreate (correctness),Passed,00:00:00.0503869,63784,0
CartView.RemoveOnlyAfterConfirm (correctness),Passed,00:00:00.0502824,95816,0
Seqs.SublistRefl (correctness),Passed,00:00:00.0494277,12815,0
LoggedIn.StoredFields (well-formedness),Passed,00:00:00.0486813,56362,0
CartView.ShowsEmptyState (well-formedness),Passed,00:00:00.0484738,20646,0
Defaults.BoolOr (well-formedness),Passed,00:00:00.0475448,18698,0
Catalog.FailedAddKeepsUrlOfCart (correctness),Passed,00:00:00.0466916,86641,0
UpdatePassword.ValidatePasswords (well-formedness),Passed,00:00:00.0463897,60502,0
Login.ConvertFullNameToComponents (well-formedness),Passed,00:00:00.0456607,39482,0
Catalog.FailedAddKeepsUrlOfCart (well-formedness),Passed,00:00:00.0448134,62746,0
CartView.TapStepper (well-formedness),Passed,00:00:00.0441208,82391,0
Collection.ToggleAgreesWithStore (correctness),Passed,00:00:00.0438985,70440,0
CartView.FixedRunKeepsGuard (correctness),Passed,00:00:00.0438409,70072,0
CartView.RemoveOnlyAfterConfirm (well-formedness),Passed,00:00:00.0435940,76270,0
Catalog.AppearSelectsFirstVariant (correctness),Passed,00:00:00.0435224,67937,0
CartView.ScreenGuardFails (correctness),Passed,00:00:00.0432725,103173,0
Text.Tokens (well-formedness),Passed,00:00:00.0432211,39714,0
Seqs.Filter (well-formedness),Passed,00:00:00.0423439,41462,0
Text.WordLengthOfWord (correctness),Passed,00:00:00.0421679,39970,0
Collection.BeginLoad (well-formedness),Passed,00:00:00.0420353,22650,0
SaveForLater.RemoveAtIsSublist (correctness),Passed,00:00:00.0407357,83470,0
Text.LowercaseFacts (correctness),Passed,00:00:00.0405204,63408,0
OrderHistory.InsertInFront (correctness),Passed,00:00:00.0404200,63548,0
Defaults.SameOutside (well-formedness),Passed,00:00:00.0402948,25904,0
Collection.FilterNoneKept (correctness),Passed,00:00:00.0393209,50501,0
SaveForLater.ShowsEmptyState (well-formedness),Passed,00:00:00.0387727,45169,0
Text.TokensOfJoin (well-formedness),Passed,00:00:00.0387009,20949,0
CartManager.Perform (well-formedness),Passed,00:00:00.0382845,39998,0
Catalog.AddToCart (well-formedness),Passed,00:00:00.0378129,74035,0
CartManager.AfterReset (correctness),Passed,00:00:00.0366307,56385,0
Text.WordLength (well-formedness),Passed,00:00:00.0364369,33950,0
DeviceToken.ByteToHex (well-formedness),Passed,00:00:00.0362971,121103,0
LoggedIn.FirstDocument (well-formedness),Passed,00:00:00.0358753,28439,0
CartManager.AfterResponse (well-formedness),Passed,00:00:00.0355475,30044,0
Text.TokensEmptyIff (correctness),Passed,00:00:00.0354982,52178,0
Collection.FilterNoneKept (well-formedness),Passed,00:00:00.0354848,24004,0
Login.NameSplitKeepsWords (correctness),Passed,00:00:00.0352426,55774,0
Catalog.OnAppear (well-formedness),Passed,00:00:00.0350677,44300,0
Text.LowercaseFacts (well-formedness),Passed,00:00:00.0350156,28822,0
Collection.MergePage (well-formedness),Passed,00:00:00.0345757,59012,0
CartView.FixedRun (well-formedness),Passed,00:00:00.0340448,43273,0
DeviceToken.DecodeTokenString (well-formedness),Passed,00:00:00.0340216,41224,0
Login.JoinStartsWithFirst (well-formedness),Passed,00:00:00.0338884,15534,0
Defaults.StringArrayFor (well-formedness),Passed,00:00:00.0331612,21424,0
Seqs.Sublist (well-formedness),Passed,00:00:00.0330367,13155,0
CartManager.RemoveItem (well-formedness),Passed,00:00:00.0328360,58378,0
CartView.AppearEnablesCheckout (correctness),Passed,00:00:00.0320168,40287,0
CartManager.RunOnlyHoldsReturnedCarts (well-formedness),Passed,00:00:00.0319667,78858,0
Seqs.SublistTail (correctness),Passed,00:00:00.0318504,21238,0
Login.NameSplitKeepsWords (well-formedness),Passed,00:00:00.0318419,35784,0
OrderHistory.InsertFacts (correctness),Passed,00:00:00.0309632,64370,0
SaveForLater.DeleteRemovesExactlyOffsets (correctness),Passed,00:00:00.0303989,47024,0
Collection.MergeAppendsSublistOfPage (well-formedness),Passed,00:00:00.0302765,46011,0
OrderHistory.DisplayedAmountOfPrice (correctness),Passed,00:00:00.0302304,55502,0
DeviceToken.TokenIsLowerHex (well-formedness),Passed,00:00:00.0297840,21836,0
Catalog.VariantLabelMarksUnavailable (correctness),Passed,00:00:00.0296179,32212,0
SaveForLater.DeleteOneIsRemoveAt (correctness),Passed,00:00:00.0290328,21886,0
Collection.Ids (well-formedness),Passed,00:00:00.0287181,25825,0
OrderHistory.SortedByDateDescending (well-formedness),Passed,00:00:00.0285351,17324,0
CartView.OnAppear (well-formedness),Passed,00:00:00.0281473,35465,0
Seqs.SublistElements (correctness),Passed,00:00:00.0279225,23757,0
Collection.MatchesSearch (well-formedness),Passed,00:00:00.0277722,31826,0
CartView.DeliverUpdate (well-formedness),Passed,00:00:00.0275868,50966,0
CartView.CheckoutDisabled (well-formedness),Passed,00:00:00.0275380,22809,0
Login.NameSplitOfJoin (correctness),Passed,00:00:00.0274489,43765,0
Catalog.PickedVariantIsSelected (well-formedness),Passed,00:00:00.0270132,45145,0
Eula.ToggleTimes (well-formedness),Passed,00:00:00.0266989,8293,0
CartManager.CreateCustomer (well-formedness),Passed,00:00:00.0266657,19582,0
CartView.AppearEnablesCheckout (well-formedness),Passed,00:00:00.0265962,36474,0
CartView.OnCheckoutCancel (well-formedness),Passed,00:00:00.0263459,33924,0
OrderHistory.OptionalPriceString (well-formedness),Passed,00:00:00.0260973,23249,0
OrderHistory.Insert (well-formedness),Passed,00:00:00.0258025,27689,0
Catalog.ShowsVariantPicker (well-formedness),Passed,00:00:00.0255505,43880,0
CartView.LineSubtitle (well-formedness),Passed,00:00:00.0254974,44449,0
DeviceToken.TokenStringInjective (correctness),Passed,00:00:00.0251997,29219,0
OrderHistory.PriceString (well-formedness),Passed,00:00:00.0250891,26721,0
CartManager.HasReset (well-formedness),Passed,00:00:00.0247143,15894,0
Login.NameSplitOfJoin (well-formedness),Passed,00:00:00.0242112,34161,0
Seqs.FilterKeepsAll (well-formedness),Passed,00:00:00.0241644,23888,0
Catalog.VariantLabelMarksUnavailable (well-formedness),Passed,00:00:00.0241454,27080,0
SaveForLater.DeleteRemovesExactlyOffsets (well-formedness),Passed,00:00:00.0239774,26477,0
CartManager.UpdateRequest (well-formedness),Passed,00:00:00.0238843,19690,0
OrderHistory.SortedTail (well-formedness),Passed,00:00:00.0233676,24991,0
CartView.BeginUpdate (well-formedness),Passed,00:00:00.0230777,19657,0
Seqs.SublistDropFront (correctness),Passed,00:00:00.0230198,17721,0
Eula.AgreeEnabledAfterOddTaps (correctness),Passed,00:00:00.0228246,25504,0
Text.WordLengthOfWord (well-formedness),Passed,00:00:00.0227496,14122,0
CartView.CompleteThenCancel (correctness),Passed,00:00:00.0224863,45031,0
SaveForLater.KeepFromFacts (well-formedness),Passed,00:00:00.0222977,23665,0
LoggedIn.ClearZeroesBadge (well-formedness),Passed,00:00:00.0216785,27062,0
CartView.NewQuantity (well-formedness),Passed,00:00:00.0215441,14541,0
Eula.AcceptNeedsAgreement (correctness),Passed,00:00:00.0212620,11964,0
Catalog.NoCartNoBadge (correctness),Passed,00:00:00.0211753,27220,0
SaveForLater.KeepFromSingle (well-formedness),Passed,00:00:00.0210089,16874,0
DeviceToken.HexDigit (well-formedness),Passed,00:00:00.0208901,15643,0
Collection.ITEMS_PER_PAGE (well-formedness),Passed,00:00:00.0206664,3664,0
CartView.LeftControlFor (well-formedness),Passed,00:00:00.0206011,10301,0
OrderHistory.HeadBeforeInserted (well-formedness),Passed,00:00:00.0204299,27887,0
Seqs.SublistTail (well-formedness),Passed,00:00:00.0201454,10210,0
OrderHistory.SortByDateDescending (well-formedness),Passed,00:00:00.0199506,25886,0
CartView.TapTrash (well-formedness),Passed,00:00:00.0199040,20054,0
SaveForLater.DeleteOneIsRemoveAt (well-formedness),Passed,00:00:00.0197207,19147,0
LoggedIn.TapClear (well-formedness),Passed,00:00:00.0196197,16098,0
UpdatePassword.MIN_PASSWORD_LENGTH (well-formedness),Passed,00:00:00.0195713,3664,0
CartView.TapCheckout (well-formedness),Passed,00:00:00.0189441,28441,0
Text.FirstToken (well-formedness),Passed,00:00:00.0188960,22456,0
Text.AllSpaces (well-formedness),Passed,00:00:00.0186955,8405,0
Text.Join (well-formedness),Passed,00:00:00.0184582,12594,0
LoggedIn.Gate (well-formedness),Passed,00:00:00.0178673,14172,0
LoggedIn.ClearZeroesBadge (correctness),Passed,00:00:00.0177894,28966,0
Eula.AgreeEnabledAfterOddTaps (well-formedness),Passed,00:00:00.0175297,9277,0
CartManager.Returned (well-formedness),Passed,00:00:00.0172889,22268,0
SaveForLater.RemoveAtIsSublist (well-formedness),Passed,00:00:00.0171302,12758,0
Seqs.SublistDropFront (well-formedness),Passed,00:00:00.0169123,9836,0
SaveForLater.RemoveAt (well-formedness),Passed,00:00:00.0168045,20030,0
Collection.FetchProducts (well-formedness),Passed,00:00:00.0165575,28265,0
SaveForLater.KeepFrom (well-formedness),Passed,00:00:00.0165487,12828,0
CartView.BusyBlocksCheckout (correctness),Passed,00:00:00.0156593,23470,0
Login.JoinStartsWithFirst (correctness),Passed,00:00:00.0156503,24866,0
Catalog.FirstVariantId (well-formedness),Passed,00:00:00.0152443,29691,0
Login.UserDataFor (well-formedness),Passed,00:00:00.0151403,22949,0
DeviceToken.byte (well-formedness),Passed,00:00:00.0150256,3430,0
Collection.FetchCollections (well-formedness),Passed,00:00:00.0149533,14562,0
OrderHistory.InsertInFront (well-formedness),Passed,00:00:00.0148869,20909,0
SaveForLater.OffsetsFrom (well-formedness),Passed,00:00:00.0148517,7576,0
Catalog.NoCartNoBadge (well-formedness),Passed,00:00:00.0147314,24185,0
SaveForLater.DeleteSavedItem (well-formedness),Passed,00:00:00.0142800,13695,0
Collection.LoadFavoriteStatus (well-formedness),Passed,00:00:00.0141919,31076,0
CartView.OnCheckoutFail (well-formedness),Passed,00:00:00.0137551,10524,0
CartView.CancelRemove (well-formedness),Passed,00:00:00.0137391,13119,0
Collection.LoadCollections (well-formedness),Passed,00:00:00.0136617,22778,0
Storefront.CheckoutUrlOf (well-formedness),Passed,00:00:00.0132273,19346,0
CartView.WrittenBegin (well-formedness),Passed,00:00:00.0132188,17990,0
DeviceToken.DigitValue (well-formedness),Passed,00:00:00.0129421,11894,0
CartManager.FetchPastOrders (well-formedness),Passed,00:00:00.0128736,12355,0
OrderHistory.DisplayedAmount (well-formedness),Passed,00:00:00.0127730,21606,0
Text.LowerChar (well-formedness),Passed,00:00:00.0124217,11359,0
CartManager.GetRandomProduct (well-formedness),Passed,00:00:00.0117972,21927,0
CartManager.TokenOf (well-formedness),Passed,00:00:00.0107931,13586,0
Storefront.StockLabel (well-formedness),Passed,00:00:00.0105558,14854,0
CartView.WrittenFinish (well-formedness),Passed,00:00:00.0104976,11915,0
CartView.FinishUpdate (well-formedness),Passed,00:00:00.0098418,12108,0
Catalog.BadgeCount (well-formedness),Passed,00:00:00.0095854,15804,0
CartManager.ResetCart (well-formedness),Passed,00:00:00.0094488,10617,0
Storefront.Int32 (well-formedness),Passed,00:00:00.0091664,4093,0
CartView.OnCheckoutComplete (well-formedness),Passed,00:00:00.0089149,13119,0
