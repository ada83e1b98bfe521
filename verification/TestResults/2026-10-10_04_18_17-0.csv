TestResult.DisplayName,TestResult.Outcome,TestResult.Duration,TestResult.ResourceCount,RandomSeed
ExtensionOrders.DigitRunOf (correctness),Passed,00:00:00.1065262,70395,2
ExtensionOrders.DigitRunOf (well-formedness),Passed,00:00:00.0997030,16757,2
