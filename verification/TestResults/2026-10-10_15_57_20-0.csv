TestResult.DisplayName,TestResult.Outcome,TestResult.Duration,TestResult.ResourceCount,RandomSeed
UsersQuery.NonCanonicalEntries (correctness),Failed,00:04:07.4576494,8075045,1
UsersQuery.NonCanonicalEntriesFallBack (correctness),Passed,00:00:00.5294963,175810,1
